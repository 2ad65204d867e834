/** The two persistence contracts of `DatabaseService`: the remote collection
    `departments/<code>` and the browser-local blob under the key `dottech-departments`.
    Transport errors are inputs (`fault`), and every operation turns them into a
    return value: none of them throws. */
module Database {
  import opened Records

  /** What the local storage key holds: nothing, one serialised mapping, or text that
      cannot be read back (unparsable, or storage access refused). */
  datatype Blob = Absent | Stored(mapping: Mapping) | Unreadable

  /** How the environment behaves during one handler: whether remote calls fail,
      whether writes to local storage fail, and whether an unexpected exception
      escapes into the handler's outer `catch` before anything is written. */
  datatype Faults = Faults(remote: bool, cache: bool, thrown: bool)

  /** What reading the blob back yields: the stored mapping, or `{}`. */
  function CacheContents(b: Blob): (m: Mapping)
    ensures b.Stored? ==> m == b.mapping
    ensures !b.Stored? ==> m == map[]
  {
    if b.Stored? then b.mapping else map[]
  }

  /** The blob after a full-replacement write of `m`; a failed write changes nothing. */
  function AfterSync(b: Blob, m: Mapping, fault: bool): (b': Blob)
    ensures !fault ==> CacheContents(b') == m
    ensures fault ==> b' == b
  {
    if fault then b else Stored(m)
  }

  class Backend {
    /** The remote collection `departments`, one child per department code. */
    var remote: Mapping
    /** The local storage entry `dottech-departments`. */
    var blob: Blob

    constructor (remote: Mapping, blob: Blob)
      ensures this.remote == remote && this.blob == blob
    {
      this.remote := remote;
      this.blob := blob;
    }

    /** `saveDepartment`: upsert one child; `false` instead of an error. */
    method SaveDepartment(id: string, data: Department, fault: bool) returns (ok: bool)
      modifies this`remote
      ensures ok <==> !fault
      ensures ok ==> remote == old(remote)[id := data]
      ensures !ok ==> remote == old(remote)
    {
      if fault {
        ok := false;
      } else {
        remote := remote[id := data];
        ok := true;
      }
    }

    /** `loadDepartment`: the record, or `None` both when it is absent and on error. */
    method LoadDepartment(id: string, fault: bool) returns (r: Option<Department>)
      ensures r.Some? <==> !fault && id in remote
      ensures r.Some? ==> r.value == remote[id]
    {
      if fault {
        r := None;
      } else if id in remote {
        r := Some(remote[id]);
      } else {
        r := None;
      }
    }

    /** `loadAllDepartments`: the whole collection, or `{}` when it is absent or on error. */
    method LoadAllDepartments(fault: bool) returns (m: Mapping)
      ensures fault ==> m == map[]
      ensures !fault ==> m == remote
    {
      if fault {
        m := map[];
      } else {
        m := remote;
      }
    }

    /** `deleteDepartment`: remove one child; `false` instead of an error. */
    method DeleteDepartment(id: string, fault: bool) returns (ok: bool)
      modifies this`remote
      ensures ok <==> !fault
      ensures ok ==> remote == old(remote) - {id}
      ensures !ok ==> remote == old(remote)
    {
      if fault {
        ok := false;
      } else {
        remote := remote - {id};
        ok := true;
      }
    }

    /** `syncWithLocalStorage`: replace the whole blob with `m`; a failure is swallowed. */
    method SyncWithLocalStorage(m: Mapping, fault: bool)
      modifies this`blob
      ensures !fault ==> blob == Stored(m)
      ensures fault ==> blob == old(blob)
    {
      if !fault {
        blob := Stored(m);
      }
    }

    /** `loadFromLocalStorage`: the stored mapping, or `{}` when absent or unreadable. */
    method LoadFromLocalStorage() returns (m: Mapping)
      ensures blob.Stored? ==> m == blob.mapping
      ensures !blob.Stored? ==> m == map[]
    {
      match blob
      case Stored(saved) => m := saved;
      case _ => m := map[];
    }

    /** `localStorage.removeItem` on the cache key, called directly and so not guarded:
        when storage access is refused (`fault`) it throws, reported here as `false`,
        and the blob is unchanged. */
    method RemoveLocalStorage(fault: bool) returns (ok: bool)
      modifies this`blob
      ensures ok <==> !fault
      ensures ok ==> blob == Absent
      ensures !ok ==> blob == old(blob)
    {
      if fault {
        ok := false;
      } else {
        blob := Absent;
        ok := true;
      }
    }
  }

  /** Round trip through the local cache: a successful sync of `m` reads back as `m`,
      and the remote collection is untouched. */
  method SyncThenLoad(db: Backend, m: Mapping) returns (loaded: Mapping)
    modifies db
    ensures loaded == m
    ensures db.remote == old(db.remote)
  {
    db.SyncWithLocalStorage(m, false);
    loaded := db.LoadFromLocalStorage();
  }
}
