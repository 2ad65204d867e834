/** The admin editor: the form, the highlights input, the invitation link, the admin
    panel's own merge of remote and cache, and the handlers that save, delete and
    flush department records. */
module Admin {
  import opened Records
  import opened Text
  import opened Database
  import opened Store
  import App

  /** The editor's form state; it has no `deptId` or `savedAt` of its own. */
  datatype Form = Form(
    name: string,
    eventName: string,
    tagline: string,
    date: string,
    time: string,
    venue: string,
    message: string,
    highlights: seq<string>)

  /** The form as first shown, and as reset after a delete or a flush. */
  function BlankForm(): (f: Form)
    ensures f.name == [] && f.message == [] && f.highlights == []
  {
    Form("", "DOTTECH", "INNOVATE \U{2022} DOMINATE \U{2022} ELEVATE",
         "JANUARY 30-31, 2026", "07:00 AM - 6:00 PM", "MAIN AUDITORIUM NEXUS", "", [])
  }

  /** The blank form shows the display fields of the built-in PUBLIC invitation. */
  lemma BlankFormIsPublicLayout()
    ensures var p := App.Defaults()[App.PublicCode];
      BlankForm() == Form([], p.eventName, p.tagline, p.date, p.time, p.venue, [], [])
  {
  }

  /** JavaScript's `s || fallback` on a string field. */
  function OrElse(s: string, fallback: string): string {
    if s == [] then fallback else s
  }

  /** The display fields of a form: those `loadDepartment` fills with a fallback. */
  predicate DisplayFilled(f: Form) {
    f.eventName != [] && f.tagline != [] && f.date != [] && f.time != [] && f.venue != []
  }

  /** The form filled from a stored record: no display field is ever left empty, a
      non-empty one is copied from the record, and name, message and highlights are
      copied as they are. */
  function FormOf(d: Department): (f: Form)
    ensures DisplayFilled(f)
    ensures f.name == d.name && f.message == d.message && f.highlights == d.highlights
    ensures d.eventName != [] && d.tagline != [] && d.date != [] && d.time != [] && d.venue != [] ==>
      f.eventName == d.eventName && f.tagline == d.tagline && f.date == d.date
      && f.time == d.time && f.venue == d.venue
  {
    Form(d.name, OrElse(d.eventName, BlankForm().eventName), OrElse(d.tagline, BlankForm().tagline),
         OrElse(d.date, BlankForm().date), OrElse(d.time, BlankForm().time),
         OrElse(d.venue, BlankForm().venue), d.message, d.highlights)
  }

  /** The record `handleSave` writes: it carries the canonical code and the save time,
      and loading it back into the editor gives the same form whenever the form's
      display fields were filled. */
  function Stamp(f: Form, key: string, savedAt: string): (d: Department)
    ensures d.deptId == Some(key) && d.savedAt == Some(savedAt)
    ensures DisplayFilled(f) ==> FormOf(d) == f
  {
    Department(f.name, f.eventName, f.tagline, f.date, f.time, f.venue, f.message, f.highlights,
               Some(key), Some(savedAt))
  }

  /** The code `handleSave` stores under: upper-cased and NOT trimmed. It has the typed
      code's length (so trailing white space survives), no lower-case letter, and is the
      typed code itself when that was already upper case. */
  function SaveKey(deptId: string): (key: string)
    ensures |key| == |deptId| && NoLower(key)
    ensures NoLower(deptId) ==> key == deptId
  {
    UpperCanonical(deptId);
    Upper(deptId)
  }

  /** Loading a record into the form and saving it again, under its own code, writes
      back the same content, provided its display fields were not empty (empty ones
      are replaced by the blank form's values). */
  lemma LoadThenSave(d: Department, key: string, savedAt: string)
    requires d.eventName != [] && d.tagline != [] && d.date != [] && d.time != [] && d.venue != []
    ensures Stamp(FormOf(d), key, savedAt) == d.(deptId := Some(key), savedAt := Some(savedAt))
  {
  }

  // ---------------------------------------------------------------------------
  // The highlights input: the text is cut at every comma, each piece is trimmed, and
  // the empty pieces are dropped.

  function TrimEach(parts: seq<string>): (r: seq<string>)
    ensures |r| == |parts|
    ensures forall i :: 0 <= i < |parts| ==> r[i] == Trim(parts[i])
  {
    if parts == [] then [] else [Trim(parts[0])] + TrimEach(parts[1..])
  }

  lemma TrimEachAppend(a: seq<string>, b: seq<string>)
    ensures TrimEach(a + b) == TrimEach(a) + TrimEach(b)
  {
  }

  /** The non-empty items, in their original order. */
  function DropEmpty(parts: seq<string>): (r: seq<string>)
    ensures |r| <= |parts|
    ensures forall i :: 0 <= i < |r| ==> r[i] != []
    ensures forall x :: x in r ==> x in parts
    ensures (forall i :: 0 <= i < |parts| ==> parts[i] != []) ==> r == parts
  {
    if parts == [] then []
    else if parts[0] == [] then DropEmpty(parts[1..])
    else [parts[0]] + DropEmpty(parts[1..])
  }

  /** A highlight as the parser leaves it: non-empty, trimmed, without a comma. */
  predicate Clean(h: string) {
    h != [] && Trimmed(h) && ',' !in h
  }

  /** The highlights list typed as comma-separated text; every item is clean. */
  function ParseHighlights(value: string): (hs: seq<string>)
    ensures forall i :: 0 <= i < |hs| ==> Clean(hs[i])
  {
    ParsedItemsClean(value);
    DropEmpty(TrimEach(Split(value, ',')))
  }

  lemma ParsedItemsClean(value: string)
    ensures forall x :: x in DropEmpty(TrimEach(Split(value, ','))) ==> Clean(x)
  {
    var pieces := Split(value, ',');
    var trimmed := TrimEach(pieces);
    forall x | x in DropEmpty(trimmed)
      ensures Clean(x)
    {
      assert x in trimmed;
      var j :| 0 <= j < |trimmed| && trimmed[j] == x;
      assert ',' !in pieces[j];
    }
  }

  /** The text the input shows for a stored list: `highlights.join(', ')`. */
  function ShowHighlights(hs: seq<string>): string {
    Join(hs, ", ")
  }

  lemma {:induction false} DropEmptyAppend(a: seq<string>, b: seq<string>)
    ensures DropEmpty(a + b) == DropEmpty(a) + DropEmpty(b)
    decreases |a|
  {
    if a != [] {
      assert (a + b)[0] == a[0];
      assert (a + b)[1..] == a[1..] + b;
      DropEmptyAppend(a[1..], b);
      if a[0] != [] {
        assert DropEmpty(a + b) == [a[0]] + DropEmpty(a[1..] + b);
      }
    } else {
      assert a + b == b;
    }
  }

  /** Parsing preserves order: text joined at a comma parses to the two parts' items,
      first part first. */
  lemma ParseConcat(a: string, b: string)
    ensures ParseHighlights(a + [','] + b) == ParseHighlights(a) + ParseHighlights(b)
  {
    SplitAppend(a, b, ',');
    var pa, pb := Split(a, ','), Split(b, ',');
    TrimEachAppend(pa, pb);
    DropEmptyAppend(TrimEach(pa), TrimEach(pb));
  }

  /** A space after a comma is dropped by the trim. */
  lemma ParseLeadingSpace(x: string)
    ensures ParseHighlights([' '] + x) == ParseHighlights(x)
  {
    var s := [' '] + x;
    assert s[1..] == x;
    var rest := Split(x, ',');
    assert Split(s, ',') == [[' '] + rest[0]] + rest[1..];
    TrimLeadingSpace(rest[0]);
    assert TrimEach(Split(s, ',')) == TrimEach(rest);
  }

  /** Round trip of the highlights input: showing a list and parsing the text back
      gives the same list, when every item is non-empty, trimmed and comma-free. */
  lemma {:induction false} ParseShowRoundTrip(hs: seq<string>)
    requires forall i :: 0 <= i < |hs| ==> Clean(hs[i])
    ensures ParseHighlights(ShowHighlights(hs)) == hs
    decreases |hs|
  {
    if |hs| == 0 {
      assert Split([], ',') == [[]];
    } else if |hs| == 1 {
      ParseSingle(hs[0]);
    } else {
      var tail := ShowHighlights(hs[1..]);
      ShowCons(hs);
      ParseSingle(hs[0]);
      ParseConcat(hs[0], [' '] + tail);
      ParseLeadingSpace(tail);
      ParseShowRoundTrip(hs[1..]);
      assert [hs[0]] + hs[1..] == hs;
    }
  }

  lemma ParseSingle(h: string)
    requires Clean(h)
    ensures ParseHighlights(h) == [h]
  {
    SplitNoSep(h, ',');
    assert TrimEach([h]) == [h];
  }

  lemma ShowCons(hs: seq<string>)
    requires |hs| > 1
    ensures ShowHighlights(hs) == hs[0] + [','] + ([' '] + ShowHighlights(hs[1..]))
  {
  }

  // ---------------------------------------------------------------------------
  // The invitation link handed to the QR generator

  /** `generateQR`'s URL: rejected (no URL) when the code is empty or all white space,
      otherwise the page address with `?dept=` and the code upper-cased and trimmed. */
  function InvitationLink(origin: string, path: string, deptId: string): (url: Option<string>)
    ensures url.None? <==> forall i :: 0 <= i < |deptId| ==> IsSpace(deptId[i])
    ensures url.Some? ==> url.value == origin + path + "?dept=" + Upper(Trim(deptId))
    ensures url.Some? ==> Upper(Trim(deptId)) != [] && Trimmed(Upper(Trim(deptId))) && NoLower(Upper(Trim(deptId)))
  {
    TrimUpper(deptId);
    UpperCanonical(Trim(deptId));
    if Trim(deptId) == [] then None
    else Some(origin + path + "?dept=" + Trim(Upper(deptId)))
  }

  /** For a code typed without surrounding white space, the link carries exactly the
      key the record is saved under. */
  lemma LinkMatchesSavedKey(origin: string, path: string, deptId: string)
    requires Trimmed(deptId) && deptId != []
    ensures InvitationLink(origin, path, deptId) == Some(origin + path + "?dept=" + SaveKey(deptId))
  {
  }

  lemma SavedKeyEndsInSpace(deptId: string)
    requires |deptId| > 0 && IsSpace(deptId[|deptId| - 1])
    ensures |SaveKey(deptId)| > 0 && IsSpace(SaveKey(deptId)[|SaveKey(deptId)| - 1])
  {
    var n := |deptId| - 1;
    assert SaveKey(deptId)[n] == UpperChar(deptId[n]);
    UpperKeepsSpace(deptId[n]);
  }

  lemma LinkCodeEndsClean(deptId: string)
    requires exists i :: 0 <= i < |deptId| && !IsSpace(deptId[i])
    ensures var code := Upper(Trim(deptId)); |code| > 0 && !IsSpace(code[|code| - 1])
  {
    var code := Upper(Trim(deptId));
    assert InvitationLink([], [], deptId).Some?;
    assert code != [] && Trimmed(code);
  }

  /** A code with any non-space character gets a link. */
  lemma UntrimmedCodeHasLink(origin: string, path: string, deptId: string)
    requires exists i :: 0 <= i < |deptId| && !IsSpace(deptId[i])
    ensures InvitationLink(origin, path, deptId).Some?
  {
  }

  /** A code typed with trailing white space is saved under a key that the link never
      names: the saved key still ends in white space, the link's code does not. Whatever
      mapping the page holds, the link resolves to some code other than the saved key. */
  lemma UntrimmedCodeLinkMisses(defaults: Mapping, m: Mapping, deptId: string)
    requires App.HasPublic(defaults)
    requires |deptId| > 0 && IsSpace(deptId[|deptId| - 1])
    requires exists i :: 0 <= i < |deptId| && !IsSpace(deptId[i])
    ensures Upper(Trim(deptId)) != SaveKey(deptId)
    ensures App.CurrentDepartment(defaults, m, Some(Upper(Trim(deptId)))).id != SaveKey(deptId)
  {
    var key := SaveKey(deptId);
    var code := Upper(Trim(deptId));
    LinkCodeEndsClean(deptId);
    SavedKeyEndsInSpace(deptId);
    EndsDiffer(key, code);
    EndsDiffer(key, App.PublicCode);
    UpperCanonical(Trim(deptId));
    ResolvedIdIsQueryOrPublic(defaults, m, code);
  }

  lemma ResolvedIdIsQueryOrPublic(defaults: Mapping, m: Mapping, code: string)
    requires App.HasPublic(defaults)
    ensures var id := App.CurrentDepartment(defaults, m, Some(code)).id;
      id == Upper(code) || id == App.PublicCode
  {
  }

  lemma EndsDiffer(spaced: string, clean: string)
    requires |spaced| > 0 && IsSpace(spaced[|spaced| - 1])
    requires |clean| > 0 && !IsSpace(clean[|clean| - 1])
    ensures spaced != clean
  {
  }

  /** With only the saved record stored, its link shows the built-in PUBLIC invitation. */
  lemma UntrimmedCodeOpensPublic(defaults: Mapping, deptId: string, d: Department)
    requires App.HasPublic(defaults)
    requires |deptId| > 0 && IsSpace(deptId[|deptId| - 1])
    requires exists i :: 0 <= i < |deptId| && !IsSpace(deptId[i])
    ensures App.CurrentDepartment(defaults, map[SaveKey(deptId) := d], Some(Upper(Trim(deptId))))
      == App.Active(defaults[App.PublicCode], App.PublicCode)
  {
    var key := SaveKey(deptId);
    var code := Upper(Trim(deptId));
    assert Upper(code) != key by {
      UntrimmedCodeLinkMisses(defaults, map[], deptId);
      UpperCanonical(Trim(deptId));
    }
    assert key != App.PublicCode by {
      SavedKeyEndsInSpace(deptId);
      EndsDiffer(key, App.PublicCode);
    }
    ResolvesPublicWhenUnmatched(defaults, key, d, code);
  }

  lemma ResolvesPublicWhenUnmatched(defaults: Mapping, key: string, d: Department, code: string)
    requires App.HasPublic(defaults)
    requires Upper(code) != key && key != App.PublicCode
    ensures App.CurrentDepartment(defaults, map[key := d], Some(code))
      == App.Active(defaults[App.PublicCode], App.PublicCode)
  {
  }

  // ---------------------------------------------------------------------------
  // The admin panel's own merge

  /** `loadDepartmentsFromFirebase`'s merge: the cache overlaid by the remote, with no
      default layer; on the exception path the cache alone. */
  function AdminMerge(remote: Mapping, local: Mapping, thrown: bool): (m: Mapping)
    ensures thrown ==> m == local
    ensures !thrown ==> m.Keys == local.Keys + remote.Keys
    ensures m.Keys <= local.Keys + remote.Keys
  {
    if thrown then local else Overlay(local, remote)
  }

  /** Record-level precedence of the admin merge: a code the remote holds gets the
      remote's record whole, any other code keeps the cached record; on the exception
      path every code keeps the cached record. */
  lemma AdminMergePrecedence(remote: Mapping, local: Mapping, thrown: bool, k: string)
    ensures !thrown && k in remote ==> AdminMerge(remote, local, thrown)[k] == remote[k]
    ensures !thrown && k !in remote && k in local ==> AdminMerge(remote, local, thrown)[k] == local[k]
    ensures thrown && k in local ==> AdminMerge(remote, local, thrown)[k] == local[k]
  {
    OverlayPrecedence(local, remote, k);
  }

  /** Unlike startup, the admin merge adds no default: with nothing remote and nothing
      cached the panel shows no department at all, while a page load shows the four
      defaults. */
  lemma AdminMergeAddsNoDefaults(thrown: bool)
    ensures AdminMerge(map[], map[], thrown) == map[]
    ensures App.Startup(App.Defaults(), map[], map[], thrown).departments == App.Defaults()
  {
  }

  /** The alert `handleSave` ends with. */
  datatype SaveOutcome = Rejected | SavedRemotely | SavedLocally

  class Panel {
    const store: State
    const db: Backend
    /** The code chosen in the department selector, `""` for "create new". */
    var selectedDept: string
    /** The code typed in the DEPARTMENT_ID input, as typed. */
    var deptId: string
    var form: Form
    /** The text of the highlights input. */
    var highlightsInput: string
    var isSuperAdmin: bool
    var showFlushBtn: bool

    constructor (store: State, db: Backend)
      ensures this.store == store && this.db == db
      ensures selectedDept == [] && deptId == [] && form == BlankForm() && highlightsInput == []
      ensures !isSuperAdmin && showFlushBtn
    {
      this.store := store;
      this.db := db;
      selectedDept := [];
      deptId := [];
      form := BlankForm();
      highlightsInput := [];
      isSuperAdmin := false;
      showFlushBtn := true;
    }

    /** `loadDepartmentsFromFirebase`: the merged mapping goes to the store and, on the
        normal path, to the cache; the exception path shows the cache and writes nothing. */
    method LoadDepartmentsFromFirebase(f: Faults)
      modifies store`departments, db`blob
      ensures store.departments
        == AdminMerge(if f.remote then map[] else old(db.remote), CacheContents(old(db.blob)), f.thrown)
      ensures db.blob == if f.thrown then old(db.blob) else AfterSync(old(db.blob), store.departments, f.cache)
      ensures db.remote == old(db.remote)
    {
      if !f.thrown {
        var fromRemote := db.LoadAllDepartments(f.remote);
        var local := db.LoadFromLocalStorage();
        var merged := Overlay(local, fromRemote);
        store.SetDepartments(merged);
        db.SyncWithLocalStorage(merged, f.cache);
      } else {
        var local := db.LoadFromLocalStorage();
        store.SetDepartments(local);
      }
    }

    /** A successful login (the password comparison itself is not modelled): the super
        tier always gets the flush button; then the panel loads the departments. */
    method OpenPanel(asSuper: bool, f: Faults)
      modifies this`isSuperAdmin, this`showFlushBtn, store`departments, db`blob
      ensures isSuperAdmin == asSuper
      ensures showFlushBtn == (asSuper || old(showFlushBtn))
      ensures store.departments
        == AdminMerge(if f.remote then map[] else old(db.remote), CacheContents(old(db.blob)), f.thrown)
      ensures db.blob == if f.thrown then old(db.blob) else AfterSync(old(db.blob), store.departments, f.cache)
      ensures db.remote == old(db.remote)
    {
      isSuperAdmin := asSuper;
      if asSuper {
        showFlushBtn := true;
      }
      LoadDepartmentsFromFirebase(f);
    }

    /** The department selector: a stored code fills the form from its record and
        shows its highlights as text; "create new" resets the form; a code that is
        not in the store leaves the form alone. */
    method SelectDepartment(value: string)
      modifies this`selectedDept, this`form, this`deptId, this`highlightsInput
      ensures selectedDept == value
      ensures value != [] && value in store.departments ==>
        && form == FormOf(store.departments[value])
        && deptId == value
        && highlightsInput == ShowHighlights(store.departments[value].highlights)
      ensures value != [] && value !in store.departments ==>
        form == old(form) && deptId == old(deptId) && highlightsInput == old(highlightsInput)
      ensures value == [] ==> form == BlankForm() && deptId == [] && highlightsInput == []
    {
      selectedDept := value;
      if value != [] {
        if value in store.departments {
          var d := store.departments[value];
          form := FormOf(d);
          deptId := value;
          selectedDept := value;
          highlightsInput := ShowHighlights(d.highlights);
        }
      } else {
        form := BlankForm();
        deptId := [];
        highlightsInput := [];
      }
    }

    /** The DEPARTMENT_ID input. */
    method EditDeptId(value: string)
      modifies this`deptId
      ensures deptId == value
    {
      deptId := value;
    }

    /** The text inputs for the record's fields, each of which replaces one field. */
    method EditForm(value: Form)
      modifies this`form
      ensures form == value.(highlights := old(form).highlights)
    {
      form := value.(highlights := form.highlights);
    }

    /** The highlights input: keep the text and parse it into the form's list. */
    method EditHighlights(value: string)
      modifies this`highlightsInput, this`form
      ensures highlightsInput == value
      ensures form == old(form).(highlights := ParseHighlights(value))
    {
      highlightsInput := value;
      form := form.(highlights := ParseHighlights(value));
    }

    /** `handleSave`. Without a code or a name nothing changes. Otherwise the record is
        stamped with the upper-cased, untrimmed code and written remotely; whether or
        not that write succeeds, the store gains the record and the cache is rewritten
        as the store's previous mapping with that code set. After a remote success the
        panel also reloads through `LoadDepartmentsFromFirebase`. */
    method Save(savedAt: string, remoteFault: bool, cacheFault: bool) returns (outcome: SaveOutcome)
      modifies store`departments, db`remote, db`blob
      ensures (old(deptId) == [] || old(form.name) == []) ==>
        && outcome == Rejected
        && store.departments == old(store.departments)
        && db.remote == old(db.remote) && db.blob == old(db.blob)
      ensures old(deptId) != [] && old(form.name) != [] ==>
        var key := SaveKey(old(deptId));
        var data := Stamp(old(form), key, savedAt);
        var cached := old(store.departments)[key := data];
        && data.deptId == Some(key)
        && (remoteFault ==>
              && outcome == SavedLocally
              && store.departments == cached
              && db.remote == old(db.remote)
              && db.blob == AfterSync(old(db.blob), cached, cacheFault))
        && (!remoteFault ==>
              && outcome == SavedRemotely
              && db.remote == old(db.remote)[key := data]
              && store.departments
                 == AdminMerge(db.remote, CacheContents(AfterSync(old(db.blob), cached, cacheFault)), false)
              && db.blob == AfterSync(AfterSync(old(db.blob), cached, cacheFault), store.departments, cacheFault))
      ensures old(deptId) != [] && old(form.name) != [] ==>
        && SaveKey(old(deptId)) in store.departments
        && store.departments[SaveKey(old(deptId))] == Stamp(old(form), SaveKey(old(deptId)), savedAt)
    {
      if deptId == [] || form.name == [] {
        return Rejected;
      }
      var key := SaveKey(deptId);
      var data := Stamp(form, key, savedAt);
      var prior := store.departments;
      var ok := db.SaveDepartment(key, data, remoteFault);
      store.AddDepartment(key, data);
      db.SyncWithLocalStorage(prior[key := data], cacheFault);
      if ok {
        ghost var local := CacheContents(db.blob);
        LoadDepartmentsFromFirebase(Faults(false, cacheFault, false));
        OverlayPrecedence(local, db.remote, key);
        outcome := SavedRemotely;
      } else {
        outcome := SavedLocally;
      }
    }

    /** `deleteDept`. Without a selection, or when the confirmation is declined, nothing
        changes. Otherwise the remote delete is attempted, the cache is rewritten as the
        store's mapping without the selected code, and the form, the typed code and the
        selection are reset; the store itself keeps the record until the page reloads. */
    method DeleteDept(confirmed: bool, remoteFault: bool, cacheFault: bool)
      modifies this`form, this`deptId, this`selectedDept, db`remote, db`blob
      ensures old(selectedDept) == [] || !confirmed ==>
        && form == old(form) && deptId == old(deptId) && selectedDept == old(selectedDept)
        && db.remote == old(db.remote) && db.blob == old(db.blob)
      ensures old(selectedDept) != [] && confirmed ==>
        && db.remote == (if remoteFault then old(db.remote) else old(db.remote) - {old(selectedDept)})
        && db.blob == AfterSync(old(db.blob), store.departments - {old(selectedDept)}, cacheFault)
        && form == BlankForm() && deptId == [] && selectedDept == []
      ensures store.departments == old(store.departments)
      ensures highlightsInput == old(highlightsInput)
    {
      if selectedDept == [] || !confirmed {
        return;
      }
      var _ := db.DeleteDepartment(selectedDept, remoteFault);
      db.SyncWithLocalStorage(store.departments - {selectedDept}, cacheFault);
      form := BlankForm();
      deptId := [];
      selectedDept := [];
    }

    /** The loop of `flushAllData`: deletes each listed code in turn; `failing` names
        the codes whose delete fails, and those are returned. */
    method DeleteEach(listed: set<string>, failing: set<string>) returns (failed: set<string>)
      modifies db`remote
      ensures failed == listed * failing
      ensures db.remote == old(db.remote) - (listed - failing)
    {
      failed := {};
      var pending := listed;
      while pending != {}
        invariant pending <= listed
        invariant failed == (listed - pending) * failing
        invariant db.remote == old(db.remote) - ((listed - pending) - failing)
        decreases pending
      {
        var id :| id in pending;
        var ok := db.DeleteDepartment(id, id in failing);
        if !ok {
          failed := failed + {id};
        }
        pending := pending - {id};
      }
    }

    /** `flushAllData`. When confirmed, every code the remote lists is deleted (an
        unreachable remote lists none) and the codes whose delete failed are returned.
        Then the cache entry is removed. If that removal throws (`storageFault`), the
        handler's `catch` ends it there: the deletes stay done and nothing else changes.
        Otherwise the store is emptied, the flush button is hidden for an ordinary
        admin, and the form is reset. */
    method FlushAllData(confirmed: bool, remoteFault: bool, failing: set<string>, storageFault: bool)
        returns (failed: set<string>)
      modifies this`form, this`deptId, this`selectedDept, this`highlightsInput, this`showFlushBtn
      modifies store`departments, db`remote, db`blob
      ensures !confirmed ==>
        && failed == {}
        && db.remote == old(db.remote)
      ensures confirmed ==>
        var listed := if remoteFault then {} else old(db.remote).Keys;
        && failed == listed * failing
        && db.remote == old(db.remote) - (listed - failing)
      ensures confirmed && !storageFault ==>
        && db.blob == Absent && store.departments == map[]
        && showFlushBtn == (old(showFlushBtn) && isSuperAdmin)
        && form == BlankForm() && deptId == [] && selectedDept == [] && highlightsInput == []
      ensures !confirmed || storageFault ==>
        && db.blob == old(db.blob) && store.departments == old(store.departments)
        && showFlushBtn == old(showFlushBtn)
        && form == old(form) && deptId == old(deptId) && selectedDept == old(selectedDept)
        && highlightsInput == old(highlightsInput)
    {
      if !confirmed {
        return {};
      }
      var all := db.LoadAllDepartments(remoteFault);
      failed := DeleteEach(all.Keys, failing);
      var removed := db.RemoveLocalStorage(storageFault);
      if !removed {
        return;
      }
      store.SetDepartments(map[]);
      if !isSuperAdmin {
        showFlushBtn := false;
      }
      form := BlankForm();
      deptId := [];
      selectedDept := [];
      highlightsInput := [];
    }
  }

  /** Saving a record and then opening the invitation page for its code: when the cache
      write succeeds, the reloaded page resolves the saved record, whether the remote
      took the write or not, unless the remote was unreachable during the save but
      holds other records when the page loads (then the remote wins and the record is
      only in the cache it overwrites). */
  method SaveThenOpen(panel: Panel, page: State, defaults: Mapping, savedAt: string,
                      remoteFault: bool, reload: Faults)
    requires panel.deptId != [] && panel.form.name != []
    requires !remoteFault || reload.remote || reload.thrown || panel.db.remote == map[]
    modifies panel.store`departments, panel.db`remote, panel.db`blob, page
    ensures var key := SaveKey(old(panel.deptId));
      && key in page.departments
      && page.departments[key] == Stamp(old(panel.form), key, savedAt)
  {
    var key := SaveKey(panel.deptId);
    var data := Stamp(panel.form, key, savedAt);
    var _ := panel.Save(savedAt, remoteFault, false);
    assert key in CacheContents(panel.db.blob) && CacheContents(panel.db.blob)[key] == data;
    ghost var remote := if reload.remote then map[] else panel.db.remote;
    ghost var local := CacheContents(panel.db.blob);
    App.Mount(page, panel.db, defaults, Some(key), reload);
    App.StartupPrecedence(defaults, remote, local, reload.thrown, key);
  }

  /** Deleting the selected department and opening the page again: when the remote
      delete and the cache write succeed, a code that is not a default is gone, and a
      default code shows its default record again. */
  method DeleteThenOpen(panel: Panel, page: State, defaults: Mapping, reload: Faults)
    requires panel.selectedDept != []
    modifies panel`form, panel`deptId, panel`selectedDept, panel.db`remote, panel.db`blob, page
    ensures var key := old(panel.selectedDept);
      && (key !in defaults ==> key !in page.departments)
      && (key in defaults ==> key in page.departments && page.departments[key] == defaults[key])
  {
    var key := panel.selectedDept;
    ghost var remote := if reload.remote then map[] else panel.db.remote;
    ghost var local := panel.store.departments;
    panel.DeleteDept(true, false, false);
    assert (if reload.remote then map[] else panel.db.remote) == remote - {key};
    App.Mount(page, panel.db, defaults, None, reload);
    App.DeleteThenReload(defaults, remote, local, key, reload.thrown);
  }
}
