/** The process-wide application state held by the `useStore` container. */
module Store {
  import opened Records

  class State {
    var departments: Mapping
    /** The raw `dept` query value, as given: never upper-cased. */
    var currentDept: Option<string>
    var isLoading: bool

    constructor ()
      ensures departments == map[] && currentDept == None && isLoading
    {
      departments := map[];
      currentDept := None;
      isLoading := true;
    }

    method SetDepartments(m: Mapping)
      modifies this`departments
      ensures departments == m
      ensures currentDept == old(currentDept) && isLoading == old(isLoading)
    {
      departments := m;
    }

    method SetCurrentDept(id: Option<string>)
      modifies this`currentDept
      ensures currentDept == id
      ensures departments == old(departments) && isLoading == old(isLoading)
    {
      currentDept := id;
    }

    method SetLoading(loading: bool)
      modifies this`isLoading
      ensures isLoading == loading
      ensures departments == old(departments) && currentDept == old(currentDept)
    {
      isLoading := loading;
    }

    /** Upsert one entry: `id` now maps to `d` and every other key keeps its record. */
    method AddDepartment(id: string, d: Department)
      modifies this`departments
      ensures departments.Keys == old(departments).Keys + {id}
      ensures departments[id] == d
      ensures forall k :: k in old(departments) && k != id ==> departments[k] == old(departments)[k]
      ensures currentDept == old(currentDept) && isLoading == old(isLoading)
    {
      departments := departments[id := d];
    }
  }

  /** Two upserts of the same code: the last writer wins, and nothing else changes. */
  method AddDepartmentTwice(s: State, id: string, first: Department, second: Department)
    modifies s`departments
    ensures s.departments == old(s.departments)[id := second]
  {
    s.AddDepartment(id, first);
    s.AddDepartment(id, second);
  }

  /** Adding a record already stored under its code leaves the mapping as it was. */
  method AddDepartmentAgain(s: State, id: string, d: Department)
    requires id in s.departments && s.departments[id] == d
    modifies s`departments
    ensures s.departments == old(s.departments)
  {
    s.AddDepartment(id, d);
  }
}
