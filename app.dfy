/** Startup resolution of the department mapping and resolution of the active
    department from the `dept` query value. */
module App {
  import opened Records
  import opened Text
  import opened Database
  import opened Store

  /** The code of the general-audience invitation, which always resolves to a record. */
  const PublicCode: string := "PUBLIC"

  const Invitation: string :=
    "Dear Esteemed Participant,\n" +
    "\n" +
    "We are honored to extend this exclusive invitation to you for DOTTECH 2026, the flagship technological symposium that brings together the brightest minds in innovation and engineering.\n" +
    "\n" +
    "This prestigious event will showcase cutting-edge developments in artificial intelligence, robotics, quantum computing, and next-generation technologies. Join us for an immersive experience featuring expert-led workshops, competitive hackathons, industry insights, and unparalleled networking opportunities.\n" +
    "\n" +
    "Your participation will contribute to shaping the future of technology and fostering collaborative innovation across disciplines. We look forward to welcoming you to this transformative gathering of visionaries and pioneers.\n" +
    "\n" +
    "Mark your calendars and prepare to be part of technological excellence.\n" +
    "\n" +
    "Warm Regards,\n" +
    "DOTTECH Organizing Committee"

  const DefaultHighlights: seq<string> :=
    ["HACK A MIN", "UNLOCK VERSE", "VIRTUAL STOCK MARKET", "CODE EVOLUTION", "QR TECH HUNT", "LAN GAMING"]

  /** A compiled-in record: every default shares the event name, dates, message and
      highlights, and has no `deptId` or `savedAt`. */
  function Builtin(name: string, tagline: string, venue: string): Department {
    Department(name, "DOTTECH", tagline, "JANUARY 30-31, 2026", "07:00 AM - 6:00 PM", venue,
               Invitation, DefaultHighlights, None, None)
  }

  /** The four compiled-in departments, the base layer of every startup merge. The
      operations below take the default layer as a parameter `defaults`; a page load
      (`Boot`) supplies this constant. */
  function Defaults(): (m: Mapping)
    ensures m.Keys == {"BSCCSIT", "BMS", "BBA", PublicCode}
    ensures HasPublic(m)
  {
    map[
      "BSCCSIT" := Builtin("BSc COMPUTER SCIENCE & IT", "CODE \U{2022} INNOVATE \U{2022} TRANSFORM", "BSc CS/IT COMPUTER LAB"),
      "BMS" := Builtin("BACHELOR OF MANAGEMENT STUDIES", "LEAD \U{2022} MANAGE \U{2022} SUCCEED", "BMS SEMINAR HALL"),
      "BBA" := Builtin("BACHELOR OF BUSINESS ADMINISTRATION", "STRATEGIZE \U{2022} EXECUTE \U{2022} EXCEL", "BBA CONFERENCE ROOM"),
      "PUBLIC" := Builtin("PUBLIC INVITATION", "INNOVATE \U{2022} DOMINATE \U{2022} ELEVATE", "MAIN AUDITORIUM NEXUS")
    ]
  }

  /** What the operations below rely on of the default layer: it holds `PUBLIC`. */
  predicate HasPublic(defaults: Mapping) {
    PublicCode in defaults
  }

  /** The effect of one startup resolution pass: the mapping handed to the store, and
      the mapping written to the local cache, if any. */
  datatype Outcome = Outcome(departments: Mapping, cacheWrite: Option<Mapping>)

  /** The source that wins a startup pass: the remote read when it has any entry and
      nothing was thrown, the local cache read otherwise. */
  function Winner(remote: Mapping, local: Mapping, thrown: bool): Mapping {
    if !thrown && |remote| > 0 then remote else local
  }

  /** `loadData`, given the default layer, what the remote read (`{}` when
      unreachable) and what the local cache read. The remote wins when it has any
      entry, otherwise the cache; the defaults are always underneath. The cache is
      rewritten only after a non-empty remote read and on the bootstrap (both reads
      empty), never on the exception path. */
  function Startup(defaults: Mapping, remote: Mapping, local: Mapping, thrown: bool): (o: Outcome)
    ensures o.departments.Keys == defaults.Keys + Winner(remote, local, thrown).Keys
    ensures o.cacheWrite.Some? <==> !thrown && (|remote| > 0 || |local| == 0)
    ensures o.cacheWrite.Some? ==> o.cacheWrite.value == o.departments
  {
    if !thrown && |remote| > 0 then
      var merged := Overlay(defaults, remote);
      Outcome(merged, Some(merged))
    else if |local| > 0 then
      Outcome(Overlay(defaults, local), None)
    else if !thrown then
      Outcome(defaults, Some(defaults))
    else
      Outcome(defaults, None)
  }

  /** Record-level precedence of a startup pass: a code of the winning source gets that
      source's record whole, and every other default code keeps its default record. */
  lemma StartupPrecedence(defaults: Mapping, remote: Mapping, local: Mapping, thrown: bool, k: string)
    ensures var o := Startup(defaults, remote, local, thrown); var src := Winner(remote, local, thrown);
      && (k in src ==> o.departments[k] == src[k])
      && (k in defaults && k !in src ==> o.departments[k] == defaults[k])
  {
    if !thrown && |remote| > 0 {
      OverlayPrecedence(defaults, remote, k);
    } else if |local| > 0 {
      OverlayPrecedence(defaults, local, k);
    }
  }

  /** Bootstrap: with nothing remote and nothing cached the result is the defaults
      verbatim and they are written to the cache; a second pass that finds them in the
      cache (the remote still empty) yields the same mapping and writes nothing. */
  lemma BootstrapIdempotent(defaults: Mapping, thrown: bool)
    requires HasPublic(defaults)
    ensures Startup(defaults, map[], map[], false) == Outcome(defaults, Some(defaults))
    ensures Startup(defaults, map[], defaults, thrown).departments == defaults
    ensures Startup(defaults, map[], defaults, thrown).cacheWrite == None
  {
    assert PublicCode in defaults.Keys;
    assert Overlay(defaults, defaults) == defaults;
  }

  /** A record saved while the remote was unreachable (so only the cache holds it)
      is what the next startup resolves for its code, as long as the remote stays
      unreachable or empty. */
  lemma SavedLocallySurvivesReload(defaults: Mapping, prior: Mapping, key: string, data: Department, thrown: bool)
    ensures key in Startup(defaults, map[], prior[key := data], thrown).departments
    ensures Startup(defaults, map[], prior[key := data], thrown).departments[key] == data
  {
    assert key in prior[key := data];
  }

  /** The same record, once the remote holds it, is resolved for its code whatever the
      cache says. */
  lemma SavedRemotelySurvivesReload(defaults: Mapping, remote: Mapping, local: Mapping, key: string, data: Department)
    ensures Startup(defaults, remote[key := data], local, false).departments[key] == data
  {
    assert key in remote[key := data];
  }

  /** A startup that reaches a non-empty remote ignores the cache and overwrites it:
      a non-default record held only in the cache is gone from both. */
  lemma RemoteOverwritesCache(defaults: Mapping, remote: Mapping, local: Mapping, key: string)
    requires |remote| > 0 && key !in remote && key !in defaults && key in local
    ensures key !in Startup(defaults, remote, local, false).departments
    ensures Startup(defaults, remote, local, false).cacheWrite.Some?
    ensures key !in Startup(defaults, remote, local, false).cacheWrite.value
  {
  }

  /** After a delete removed `key` from the remote and from the cache, the reload no
      longer resolves it, unless it is a default code, whose default record comes back. */
  lemma DeleteThenReload(defaults: Mapping, remote: Mapping, local: Mapping, key: string, thrown: bool)
    ensures key !in defaults ==> key !in Startup(defaults, remote - {key}, local - {key}, thrown).departments
    ensures key in defaults ==> Startup(defaults, remote - {key}, local - {key}, thrown).departments[key] == defaults[key]
  {
  }

  /** The cache tier of `loadData`, shared by the normal path (`bootstrap`: the defaults
      are also written to the cache when it is empty) and the exception path (nothing
      is written). */
  method LoadFromCacheTier(store: State, db: Backend, defaults: Mapping, bootstrap: bool, cacheFault: bool)
    modifies store`departments, db`blob
    ensures var local := CacheContents(old(db.blob));
      && store.departments == (if |local| > 0 then Overlay(defaults, local) else defaults)
      && db.blob == (if |local| == 0 && bootstrap then AfterSync(old(db.blob), defaults, cacheFault) else old(db.blob))
    ensures db.remote == old(db.remote)
    ensures store.isLoading == old(store.isLoading) && store.currentDept == old(store.currentDept)
  {
    var local := db.LoadFromLocalStorage();
    if |local| > 0 {
      store.SetDepartments(Overlay(defaults, local));
    } else {
      store.SetDepartments(defaults);
      if bootstrap {
        db.SyncWithLocalStorage(defaults, cacheFault);
      }
    }
  }

  /** `loadData`: one resolution pass over the store and the two persistence layers,
      then the loading flag is cleared. */
  method LoadData(store: State, db: Backend, defaults: Mapping, f: Faults)
    modifies store`departments, store`isLoading, db`blob
    ensures var o := Startup(defaults, if f.remote then map[] else old(db.remote), CacheContents(old(db.blob)), f.thrown);
      && store.departments == o.departments
      && db.blob == (if o.cacheWrite.Some? then AfterSync(old(db.blob), o.cacheWrite.value, f.cache) else old(db.blob))
    ensures db.remote == old(db.remote)
    ensures !store.isLoading && store.currentDept == old(store.currentDept)
  {
    if !f.thrown {
      var fromRemote := db.LoadAllDepartments(f.remote);
      if |fromRemote| > 0 {
        var merged := Overlay(defaults, fromRemote);
        store.SetDepartments(merged);
        db.SyncWithLocalStorage(merged, f.cache);
      } else {
        LoadFromCacheTier(store, db, defaults, true, f.cache);
      }
    } else {
      LoadFromCacheTier(store, db, defaults, false, f.cache);
    }
    store.SetLoading(false);
  }

  /** The mount effect of the page: start `loadData` and record the raw `dept` query
      value, not upper-cased. */
  method Mount(store: State, db: Backend, defaults: Mapping, query: Option<string>, f: Faults)
    modifies store, db`blob
    ensures var o := Startup(defaults, if f.remote then map[] else old(db.remote), CacheContents(old(db.blob)), f.thrown);
      && store.departments == o.departments
      && db.blob == (if o.cacheWrite.Some? then AfterSync(old(db.blob), o.cacheWrite.value, f.cache) else old(db.blob))
    ensures db.remote == old(db.remote)
    ensures !store.isLoading && store.currentDept == query
  {
    LoadData(store, db, defaults, f);
    store.SetCurrentDept(query);
  }

  /** A page load (also the reload after a delete): a fresh store, then the mount effect
      over the compiled-in defaults. */
  method Boot(db: Backend, query: Option<string>, f: Faults) returns (store: State)
    modifies db`blob
    ensures fresh(store)
    ensures var o := Startup(Defaults(), if f.remote then map[] else old(db.remote), CacheContents(old(db.blob)), f.thrown);
      && store.departments == o.departments
      && db.blob == (if o.cacheWrite.Some? then AfterSync(old(db.blob), o.cacheWrite.value, f.cache) else old(db.blob))
    ensures db.remote == old(db.remote)
    ensures !store.isLoading && store.currentDept == query
  {
    store := new State();
    Mount(store, db, Defaults(), query, f);
  }

  /** Two page loads with nothing remote and nothing cached both show the defaults, and
      the cache ends up holding them. */
  method BootTwice(db: Backend) returns (first: State, second: State)
    requires db.remote == map[] && db.blob == Absent
    modifies db`blob
    ensures first.departments == Defaults() && second.departments == Defaults()
    ensures db.blob == Stored(Defaults())
  {
    BootstrapIdempotent(Defaults(), false);
    first := Boot(db, None, Faults(false, false, false));
    second := Boot(db, None, Faults(false, false, false));
  }

  /** The resolved active department and its code. */
  datatype Active = Active(dept: Department, id: string)

  /** `getCurrentDepartment`: a non-empty query value, upper-cased, selects its record
      when the mapping has it; anything else selects `PUBLIC`, from the mapping if it
      is there and from the default layer otherwise. Total on every mapping and query. */
  function CurrentDepartment(defaults: Mapping, m: Mapping, query: Option<string>): (a: Active)
    requires HasPublic(defaults)
    ensures query.Some? && query.value != [] && Upper(query.value) in m
      ==> a == Active(m[Upper(query.value)], Upper(query.value))
    ensures !(query.Some? && query.value != [] && Upper(query.value) in m)
      ==> a.id == PublicCode
    ensures a.id in m ==> a.dept == m[a.id]
    ensures a.id !in m ==> a.id == PublicCode && a.dept == defaults[PublicCode]
  {
    if query.Some? && query.value != [] && Upper(query.value) in m then
      Active(m[Upper(query.value)], Upper(query.value))
    else
      Active(if PublicCode in m then m[PublicCode] else defaults[PublicCode], PublicCode)
  }

  /** `showDeptSection`: whether the department-specific section is rendered. */
  predicate ShowDeptSection(id: string) {
    id != PublicCode
  }

  /** The query value is case-insensitive: `c` and its upper-cased form resolve to the
      same record and code. */
  lemma CaseInsensitive(defaults: Mapping, m: Mapping, c: string)
    requires HasPublic(defaults)
    ensures CurrentDepartment(defaults, m, Some(c)) == CurrentDepartment(defaults, m, Some(Upper(c)))
  {
    UpperCanonical(c);
  }

  /** The department section is shown exactly when a non-empty query value names, in
      upper case, a stored code other than `PUBLIC`. */
  lemma ShowsSectionIff(defaults: Mapping, m: Mapping, query: Option<string>)
    requires HasPublic(defaults)
    ensures ShowDeptSection(CurrentDepartment(defaults, m, query).id)
      <==> query.Some? && query.value != [] && Upper(query.value) in m && Upper(query.value) != PublicCode
  {
  }

  /** `?dept=public` selects the PUBLIC record and hides the department section. */
  lemma PublicQueryHidesSection(defaults: Mapping, m: Mapping)
    requires HasPublic(defaults)
    ensures CurrentDepartment(defaults, m, Some("public")).id == PublicCode
    ensures !ShowDeptSection(CurrentDepartment(defaults, m, Some("public")).id)
  {
  }

  /** With a remote holding only `CSIT` over the four default codes, the resolved
      mapping has five entries. */
  lemma RemoteScenarioSize(defaults: Mapping, csit: Department, local: Mapping)
    requires defaults.Keys == {"BSCCSIT", "BMS", "BBA", PublicCode}
    ensures |Startup(defaults, map["CSIT" := csit], local, false).departments| == 5
  {
    var m := Startup(defaults, map["CSIT" := csit], local, false).departments;
    assert m.Keys == {"BSCCSIT", "BMS", "BBA", PublicCode, "CSIT"};
  }

  /** In that mapping `?dept=csit` selects the CSIT record, case-insensitively. */
  lemma RemoteScenarioKnown(defaults: Mapping, csit: Department, local: Mapping)
    requires HasPublic(defaults)
    ensures CurrentDepartment(defaults, Startup(defaults, map["CSIT" := csit], local, false).departments, Some("csit"))
      == Active(csit, "CSIT")
  {
    assert Upper("csit") == "CSIT";
    StartupPrecedence(defaults, map["CSIT" := csit], local, false, "CSIT");
  }

  /** In that mapping `?dept=xyz` falls back to the default PUBLIC record. */
  lemma RemoteScenarioUnknown(defaults: Mapping, csit: Department, local: Mapping)
    requires defaults.Keys == {"BSCCSIT", "BMS", "BBA", PublicCode}
    ensures CurrentDepartment(defaults, Startup(defaults, map["CSIT" := csit], local, false).departments, Some("xyz"))
      == Active(defaults[PublicCode], PublicCode)
  {
    assert PublicCode in defaults.Keys;
    assert Upper("xyz") == "XYZ";
    StartupPrecedence(defaults, map["CSIT" := csit], local, false, PublicCode);
  }

  /** With the remote unreachable and a cache holding only a custom PUBLIC record, the
      page resolves that custom record, not the default one. */
  lemma CachedPublicScenario(defaults: Mapping, custom: Department, query: Option<string>)
    requires HasPublic(defaults)
    requires query.None? || query.value == [] || Upper(query.value) !in defaults
    ensures CurrentDepartment(defaults, Startup(defaults, map[], map[PublicCode := custom], false).departments, query)
      == Active(custom, PublicCode)
  {
    assert PublicCode in map[PublicCode := custom];
  }
}
