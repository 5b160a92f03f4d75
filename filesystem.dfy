/**
 * The part of the host filesystem the two file-replacing scripts touch: a
 * directory, whether it exists, and its entries by name. The effects of
 * shutil.copy2, os.remove, os.makedirs and os.listdir on one directory level
 * are given as functions on the entry map, and as methods of Directory that
 * update it in place.
 */
module FileSystem {
  import opened Wrappers
  import Paths

  type Bytes = seq<bv8>

  /** A directory entry: a regular file, or a sub-directory whose contents are not modelled. */
  datatype Entry = File(data: Bytes) | Subdir

  /** The names os.listdir can return: non-empty, without a separator. */
  predicate ValidName(name: string)
  {
    name != "" && Paths.NoSeparator(name)
  }

  /** names lists the keys of m, each exactly once. */
  ghost predicate IsListing(names: seq<string>, m: map<string, Entry>)
  {
    (forall i, j :: 0 <= i < j < |names| ==> names[i] != names[j]) &&
    (forall n :: n in names <==> n in m)
  }

  /**
   * What writing data to the path name leaves at this level: a regular file
   * there; when name is a sub-directory the write lands inside it (copy2) or
   * fails (ffmpeg), and this level is unchanged either way.
   */
  function WriteAt(m: map<string, Entry>, name: string, data: Bytes): (r: map<string, Entry>)
    ensures r.Keys == m.Keys + {name}
    ensures forall k :: k in m && k != name ==> r[k] == m[k]
    ensures name in m && m[name].Subdir? ==> r == m
    ensures !(name in m && m[name].Subdir?) ==> r[name] == File(data)
  {
    if name in m && m[name].Subdir? then m else m[name := File(data)]
  }

  /** Writing a file and then removing it leaves the other names as they were. */
  lemma WriteThenRemove(m: map<string, Entry>, name: string, data: Bytes)
    ensures WriteAt(m, name, data) - {name} == m - {name}
  {
  }

  /**
   * shutil.copy2(src, dst) with both names in the same directory; None when
   * it raises: src missing or a sub-directory (FileNotFoundError,
   * IsADirectoryError), or src and dst the same file (SameFileError).
   */
  function Copy2Within(m: map<string, Entry>, src: string, dst: string): Option<map<string, Entry>>
  {
    if src !in m || m[src].Subdir? || src == dst then None
    else Some(WriteAt(m, dst, m[src].data))
  }

  /** os.remove(name); None when it raises (missing, or a directory). */
  function RemoveFile(m: map<string, Entry>, name: string): (r: Option<map<string, Entry>>)
    ensures r.Some? <==> name in m && m[name].File?
    ensures r.Some? ==> r.value.Keys == m.Keys - {name} && forall k :: k in r.value ==> r.value[k] == m[k]
  {
    if name in m && m[name].File? then Some(m - {name}) else None
  }

  class Directory {
    const path: string
    var present: bool
    var entries: map<string, Entry>

    ghost predicate Valid()
      reads this
    {
      (!present ==> entries == map[]) && forall n :: n in entries ==> ValidName(n)
    }

    constructor (path: string, present: bool, entries: map<string, Entry>)
      requires !present ==> entries == map[]
      requires forall n :: n in entries ==> ValidName(n)
      ensures Valid()
      ensures this.path == path && this.present == present && this.entries == entries
    {
      this.path := path;
      this.present := present;
      this.entries := entries;
    }

    /** os.makedirs when the directory is missing: it then exists, empty. */
    method MakeDirs()
      requires Valid()
      modifies this
      ensures Valid() && present && entries == old(entries)
    {
      present := true;
    }

    /** os.listdir: every entry name once, in an order the OS chooses. */
    method ListDir() returns (names: seq<string>)
      requires Valid() && present
      ensures IsListing(names, entries)
      ensures forall i :: 0 <= i < |names| ==> ValidName(names[i])
    {
      names := [];
      var rest := entries.Keys;
      while rest != {}
        invariant rest <= entries.Keys
        invariant forall n :: n in names <==> n in entries && n !in rest
        invariant forall i, j :: 0 <= i < j < |names| ==> names[i] != names[j]
        decreases rest
      {
        var n :| n in rest;
        names := names + [n];
        rest := rest - {n};
      }
    }

    /** shutil.copy2 between two names of this directory; ok is false when it raises. */
    method Copy2(src: string, dst: string) returns (ok: bool)
      requires Valid() && ValidName(dst)
      modifies this
      ensures Valid() && present == old(present)
      ensures ok == Copy2Within(old(entries), src, dst).Some?
      ensures entries == if ok then Copy2Within(old(entries), src, dst).value else old(entries)
    {
      ok := src in entries && entries[src].File? && src != dst;
      if ok {
        entries := WriteAt(entries, dst, entries[src].data);
      }
    }

    /** os.remove; ok is false when it raises. */
    method Remove(name: string) returns (ok: bool)
      requires Valid()
      modifies this
      ensures Valid() && present == old(present)
      ensures ok == RemoveFile(old(entries), name).Some?
      ensures entries == if ok then RemoveFile(old(entries), name).value else old(entries)
    {
      ok := name in entries && entries[name].File?;
      if ok {
        entries := entries - {name};
      }
    }

    /** Something (ffmpeg, copy2 from another directory) writes data to the path of name. */
    method Write(name: string, data: Bytes)
      requires Valid() && present && ValidName(name)
      modifies this
      ensures Valid() && present
      ensures entries == WriteAt(old(entries), name, data)
    {
      entries := WriteAt(entries, name, data);
    }
  }
}
