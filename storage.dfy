/**
 * The pure parts of storage discovery: the unit name of each_hash
 * (recoverlost_lib.rb, lines 69-75), the extension and file count of
 * open_storage (lines 101-118) and the backend choice of new_storage
 * (lines 120-131). Directory listing and the backends themselves are inputs.
 */
module Storage {
  import opened Wrappers
  import opened Bytes
  import opened Text

  datatype Backend = TCStorage | DbmStorage | SQLite3Storage

  /** new_storage: the backend class for a data file extension, nil for any other. */
  function NewStorage(ext: string): (b: Option<Backend>)
    ensures b == Some(TCStorage) <==> ext == "tc"
    ensures b == Some(DbmStorage) <==> ext == "dbm"
    ensures b == Some(SQLite3Storage) <==> ext == "sql3"
  {
    if ext == "tc" then Some(TCStorage)
    else if ext == "dbm" then Some(DbmStorage)
    else if ext == "sql3" then Some(SQLite3Storage)
    else None
  }

  /**
   * The part of s after its last occurrence of c, as
   * s[s.rindex(c)+1..-1]; None when c does not occur, where rindex is nil
   * and the Ruby code raises.
   */
  function AfterLast(s: string, c: char): (r: Option<string>)
    ensures r.None? <==> c !in s
    ensures r.Some? ==>
      var t := r.value;
      && |t| < |s| && s[|s| - |t| - 1] == c && s[|s| - |t|..] == t && c !in t
  {
    if s == [] then None
    else if s[|s| - 1] == c then Some([])
    else match AfterLast(s[..|s| - 1], c)
      case None => None
      case Some(t) => Some(t + [s[|s| - 1]])
  }

  /** each_hash: the unit name is the path after its last '/'. */
  function HashName(dir: string): Option<string> {
    AfterLast(dir, '/')
  }

  predicate EndsWith(s: string, p: string) {
    |p| <= |s| && s[|s| - |p|..] == p
  }

  /** The first name the glob "0.*" matches in a listing. */
  function FirstDataFile(files: seq<string>): (f: Option<string>)
    ensures f.Some? ==> f.value in files && IsPrefix("0.", f.value) && '.' in f.value
    ensures f.None? ==> forall i :: 0 <= i < |files| ==> !IsPrefix("0.", files[i])
  {
    if files == [] then None
    else if IsPrefix("0.", files[0]) then assert files[0][1] == '.'; Some(files[0])
    else FirstDataFile(files[1..])
  }

  /** Dir::glob lists in order: a `0.*` name with none before it is the one picked. */
  lemma {:induction false} FirstDataFileIsFirst(files: seq<string>, i: nat)
    requires i < |files| && IsPrefix("0.", files[i])
    requires forall j :: 0 <= j < i ==> !IsPrefix("0.", files[j])
    ensures FirstDataFile(files) == Some(files[i])
    decreases i
  {
    if i > 0 {
      assert !IsPrefix("0.", files[0]);
      FirstDataFileIsFirst(files[1..], i - 1);
    }
  }

  /** The names the glob "*.ext" matches: a '*' does not match a leading '.'. */
  predicate MatchesExt(name: string, ext: string) {
    EndsWith(name, "." + ext) && !IsPrefix(".", name)
  }

  /** divnum: how many names of the listing carry the extension. */
  function DivNum(files: seq<string>, ext: string): (n: nat)
    ensures n <= |files|
    ensures n == 0 <==> forall i :: 0 <= i < |files| ==> !MatchesExt(files[i], ext)
  {
    if files == [] then 0
    else DivNum(files[..|files| - 1], ext) + (if MatchesExt(files[|files| - 1], ext) then 1 else 0)
  }

  /** The positions of the listing that the glob "*.ext" matches. */
  ghost function Matching(files: seq<string>, ext: string): set<int> {
    set i | 0 <= i < |files| && MatchesExt(files[i], ext)
  }

  /** The matches of a listing: those of all but its last name, and the last name when it matches. */
  lemma MatchingSnoc(files: seq<string>, ext: string)
    requires files != []
    ensures var last := |files| - 1;
      Matching(files, ext) == Matching(files[..last], ext) + (if MatchesExt(files[last], ext) then {last} else {})
  {
    var last := |files| - 1;
    var init := files[..last];
    forall i | 0 <= i < last
      ensures init[i] == files[i]
    {
    }
  }

  /** divnum is the number of names the glob "*.ext" matches. */
  lemma {:induction false} DivNumCount(files: seq<string>, ext: string)
    ensures DivNum(files, ext) == |Matching(files, ext)|
    decreases |files|
  {
    if files == [] {
      assert Matching(files, ext) == {};
    } else {
      var last := |files| - 1;
      DivNumCount(files[..last], ext);
      MatchingSnoc(files, ext);
      assert last !in Matching(files[..last], ext);
    }
  }

  /** One entry of the unit root listing: its full path and, for a directory, its listing and its records per vnode. */
  datatype Entry = Entry(path: string, isDir: bool, files: seq<string>, dumps: map<int, seq<seq<byte>>>)

  /** A configured, opened backend; dumps stands in for each_vn_dump. */
  datatype Store = Store(backend: Backend, divnum: nat, vnList: seq<int>, path: string,
                         dumps: map<int, seq<seq<byte>>>)

  datatype Opened =
    | Opened(store: Store)
    | NotFound              // the path is not a directory: open_storage returns nil
    | NoDataFile            // no "0.*" file: File::extname(nil) raises
    | Unsupported(ext: string)  // new_storage returned nil and `st.divnum =` raises

  /** open_storage on a listing: the extension of the first "0.*" file picks the backend. */
  function OpenStorage(e: Entry, vnList: seq<int>): (o: Opened)
    ensures o.NotFound? <==> !e.isDir
    ensures o.NoDataFile? <==> e.isDir && FirstDataFile(e.files).None?
    ensures e.isDir && FirstDataFile(e.files).Some? ==>
      var ext := AfterLast(FirstDataFile(e.files).value, '.').value;
      && (o.Opened? <==> NewStorage(ext).Some?)
      && (o.Unsupported? <==> NewStorage(ext).None?)
      && (o.Unsupported? ==> o.ext == ext)
    ensures o.Opened? ==>
      && FirstDataFile(e.files).Some?
      && var ext := AfterLast(FirstDataFile(e.files).value, '.').value;
      && NewStorage(ext) == Some(o.store.backend)
      && o.store == Store(o.store.backend, DivNum(e.files, ext), vnList, e.path, e.dumps)
  {
    if !e.isDir then NotFound
    else
      match FirstDataFile(e.files)
      case None => NoDataFile
      case Some(f) =>
        // f starts with "0.", so it has a '.' and an extension, perhaps empty
        var ext := AfterLast(f, '.').value;
        match NewStorage(ext)
        case None => Unsupported(ext)
        case Some(b) => Opened(Store(b, DivNum(e.files, ext), vnList, e.path, e.dumps))
  }

  /** The records each_vn_dump yields for a vnode: none when the store holds none. */
  function DumpOf(s: Store, vn: int): seq<seq<byte>> {
    if vn in s.dumps then s.dumps[vn] else []
  }
}
