/** Department records and the mapping from department code to record, shared by
    the store, the persistence layer, the startup resolution and the admin editor. */
module Records {

  datatype Option<+T> = None | Some(value: T)

  /** One department's invitation content. `deptId` and `savedAt` are present only on
      records written by the admin editor; the compiled-in defaults carry neither. */
  datatype Department = Department(
    name: string,
    eventName: string,
    tagline: string,
    date: string,
    time: string,
    venue: string,
    message: string,
    highlights: seq<string>,
    deptId: Option<string>,
    savedAt: Option<string>)

  /** Department code to record; the keys are unique by construction. */
  type Mapping = map<string, Department>

  /** The object spread `{ ...base, ...top }`: every key of either side. */
  function Overlay(base: Mapping, top: Mapping): (r: Mapping)
    ensures r.Keys == base.Keys + top.Keys
  {
    base + top
  }

  /** In an overlay a key of `top` gets the record of `top` whole, never merged field by
      field with the record of `base`; every other key keeps its record from `base`. */
  lemma OverlayPrecedence(base: Mapping, top: Mapping, k: string)
    ensures k in top ==> Overlay(base, top)[k] == top[k]
    ensures k in base && k !in top ==> Overlay(base, top)[k] == base[k]
  {
  }
}
