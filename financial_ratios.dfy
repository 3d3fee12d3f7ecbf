/**
  `process_json_files` from the financial-ratios importer: list the files
  `<data_directory>/financial_*.json`, visit them in sorted path order, and
  concatenate the `data` list of every document that has a truthy one.

  The directory listing and the file contents are inputs: `names` is what the
  directory holds, in whatever order the operating system lists it, and
  `files` says, for each path, whether opening it raises, whether `json.load`
  raises `JSONDecodeError`, or which document it decodes to.
*/
module FinancialRatios {
  import opened Wrappers
  import opened JsonValue
  import opened PathOrder

  datatype FileRead = Unopenable | Undecodable | Decoded(doc: Json)

  /** The exceptions that escape the loop and are re-raised. */
  datatype ImportError = OpenFailed(path: string) | TypeError(path: string)

  const FilePrefix: string := "financial_"
  const FileSuffix: string := ".json"
  const DataKey: string := "data"

  // ---------------------------------------------------------------------------
  // glob.glob(f"{data_directory}/financial_*.json")

  /** A directory entry the pattern `financial_*.json` matches. */
  predicate MatchesPattern(name: string) {
    |name| >= |FilePrefix| + |FileSuffix| &&
    name[..|FilePrefix|] == FilePrefix &&
    name[|name| - |FileSuffix|..] == FileSuffix
  }

  function PathOf(dir: string, name: string): string {
    dir + "/" + name
  }

  /** The paths the pattern selects, in listing order. */
  function Glob(dir: string, names: seq<string>): (paths: seq<string>)
    ensures |paths| <= |names|
  {
    if names == [] then []
    else
      var init, last := names[..|names| - 1], names[|names| - 1];
      Glob(dir, init) + if MatchesPattern(last) then [PathOf(dir, last)] else []
  }

  lemma PathOfInjective(dir: string, a: string, b: string)
    requires PathOf(dir, a) == PathOf(dir, b)
    ensures a == b
  {
    var n := |dir| + 1;
    assert a == PathOf(dir, a)[n..];
    assert b == PathOf(dir, b)[n..];
  }

  /** A path is selected exactly when it names a matching entry of the directory. */
  lemma {:induction false} GlobSelects(dir: string, names: seq<string>, name: string)
    ensures PathOf(dir, name) in Glob(dir, names) <==> name in names && MatchesPattern(name)
  {
    if names != [] {
      var init, last := names[..|names| - 1], names[|names| - 1];
      assert names == init + [last];
      GlobSelects(dir, init, name);
      if PathOf(dir, name) == PathOf(dir, last) {
        PathOfInjective(dir, name, last);
      }
    }
  }

  lemma {:induction false} GlobAppend(dir: string, a: seq<string>, b: seq<string>)
    ensures Glob(dir, a + b) == Glob(dir, a) + Glob(dir, b)
    decreases |b|
  {
    if b == [] {
      assert a + b == a;
    } else {
      var init, last := b[..|b| - 1], b[|b| - 1];
      assert a + b == (a + init) + [last];
      assert (a + b)[..|a + b| - 1] == a + init;
      GlobAppend(dir, a, init);
    }
  }

  lemma RemoveAt(xs: seq<string>, k: nat)
    requires k < |xs|
    ensures multiset(xs) == multiset(xs[..k] + xs[k + 1..]) + multiset{xs[k]}
  {
    assert xs == xs[..k] + [xs[k]] + xs[k + 1..];
  }

  /** Selecting from a list with one entry taken out, then adding that entry's selection back. */
  lemma GlobRemoveAt(dir: string, xs: seq<string>, k: nat)
    requires k < |xs|
    ensures multiset(Glob(dir, xs)) == multiset(Glob(dir, xs[..k] + xs[k + 1..])) + multiset(Glob(dir, [xs[k]]))
  {
    var a, b := xs[..k], xs[k + 1..];
    assert xs == a + [xs[k]] + b;
    GlobAppend(dir, a + [xs[k]], b);
    GlobAppend(dir, a, [xs[k]]);
    GlobAppend(dir, a, b);
  }

  /** Listing the same entries in another order selects the same paths, in another order. */
  lemma {:induction false} GlobPermutes(dir: string, n1: seq<string>, n2: seq<string>)
    requires multiset(n1) == multiset(n2)
    ensures multiset(Glob(dir, n1)) == multiset(Glob(dir, n2))
    decreases |n1|
  {
    if n1 == [] {
      assert n2 == [] by {
        assert |multiset(n2)| == |n2|;
      }
    } else {
      var last := |n1| - 1;
      var x := n1[last];
      assert x in multiset(n2);
      var k :| 0 <= k < |n2| && n2[k] == x;
      RemoveAt(n1, last);
      RemoveAt(n2, k);
      assert n1[..last] + n1[last + 1..] == n1[..last];
      assert multiset(n1[..last]) == multiset(n1) - multiset{x};
      assert multiset(n2[..k] + n2[k + 1..]) == multiset(n2) - multiset{x};
      GlobPermutes(dir, n1[..last], n2[..k] + n2[k + 1..]);
      GlobRemoveAt(dir, n1, last);
      GlobRemoveAt(dir, n2, k);
    }
  }

  // ---------------------------------------------------------------------------
  // One file: the body of the `try`

  predicate OccursAt(s: string, sub: string, i: int) {
    0 <= i <= |s| - |sub| && s[i..i + |sub|] == sub
  }

  /** `sub in s` on Python strings. */
  predicate Contains(s: string, sub: string) {
    exists i :: 0 <= i <= |s| && OccursAt(s, sub, i)
  }

  /** What `list.extend(v)` appends: `None` when `v` is not iterable (`TypeError`). */
  function Iterate(v: Json): (r: Option<seq<Json>>)
    ensures r.None? <==> v.JNull? || v.JBool? || v.JNum?
    ensures v.JArr? ==> r == Some(v.items)
    ensures v.JStr? ==> r.Some? && |r.value| == |v.s|
  {
    match v
    case JArr(xs) => Some(xs)
    case JStr(s) => Some(seq(|s|, i requires 0 <= i < |s| => JStr([s[i]])))
    case JObj(ms) => Some(seq(|UniqueKeys(ms)|, i requires 0 <= i < |UniqueKeys(ms)| => JStr(UniqueKeys(ms)[i])))
    case _ => None
  }

  /**
    `if 'data' in json_data and json_data['data']: all_data.extend(json_data['data'])`
    on one decoded document: the items it adds, or `None` for a `TypeError`.
  */
  function DataOf(doc: Json): (r: Option<seq<Json>>)
    ensures r.None? <==>
      doc.JNull? || doc.JBool? || doc.JNum? ||
      (doc.JArr? && JStr(DataKey) in doc.items) ||
      (doc.JStr? && Contains(doc.s, DataKey)) ||
      (doc.JObj? && Lookup(doc.members, DataKey).Some? &&
        PyTruthy(Lookup(doc.members, DataKey).value) && Iterate(Lookup(doc.members, DataKey).value).None?)
    ensures r.Some? && r.value != [] ==> doc.JObj? && Lookup(doc.members, DataKey).Some?
    ensures doc.JObj? && Lookup(doc.members, DataKey).Some? && PyTruthy(Lookup(doc.members, DataKey).value) ==>
      r == Iterate(Lookup(doc.members, DataKey).value)
    ensures forall xs :: doc.JObj? && Lookup(doc.members, DataKey) == Some(JArr(xs)) ==> r == Some(xs)
  {
    match doc
    case JObj(ms) =>
      var v := Lookup(ms, DataKey);
      if v.None? || !PyTruthy(v.value) then Some([]) else Iterate(v.value)
    case JArr(xs) => if JStr(DataKey) in xs then None else Some([])
    case JStr(s) => if Contains(s, DataKey) then None else Some([])
    case _ => None
  }

  /** What one path adds to `all_data`, or the exception that ends the run. */
  function Contribution(path: string, files: map<string, FileRead>): (r: Result<seq<Json>, ImportError>)
    ensures r.Failure? ==> r.error.path == path
    ensures path in files && files[path].Undecodable? ==> r == Success([])
  {
    if path !in files then Failure(OpenFailed(path))
    else
      match files[path]
      case Unopenable => Failure(OpenFailed(path))
      case Undecodable => Success([])
      case Decoded(doc) =>
        match DataOf(doc)
        case None => Failure(TypeError(path))
        case Some(items) => Success(items)
  }

  /** `all_data` after visiting `paths`, or the first exception raised. */
  function Processed(paths: seq<string>, files: map<string, FileRead>): (r: Result<seq<Json>, ImportError>)
    ensures r.Failure? ==> r.error.path in paths && Contribution(r.error.path, files).Failure?
    ensures r.Success? ==> forall p :: p in paths ==> Contribution(p, files).Success?
  {
    if paths == [] then Success([])
    else
      match Processed(paths[..|paths| - 1], files)
      case Failure(e) => Failure(e)
      case Success(acc) =>
        match Contribution(paths[|paths| - 1], files)
        case Failure(e) => Failure(e)
        case Success(items) => Success(acc + items)
  }

  /** Running two stretches of files one after the other. */
  function Then(first: Result<seq<Json>, ImportError>, second: Result<seq<Json>, ImportError>): Result<seq<Json>, ImportError> {
    match first
    case Failure(e) => Failure(e)
    case Success(a) =>
      match second
      case Failure(e) => Failure(e)
      case Success(b) => Success(a + b)
  }

  // ---------------------------------------------------------------------------
  // The loop

  /** `process_json_files(data_directory)`: select, sort, then fold. */
  method ProcessJsonFiles(dataDirectory: string, names: seq<string>, files: map<string, FileRead>)
    returns (r: Result<seq<Json>, ImportError>)
    ensures r == Processed(SortStrings(Glob(dataDirectory, names)), files)
  {
    var jsonFiles := Glob(dataDirectory, names);
    r := ProcessSorted(SortStrings(jsonFiles), files);
  }

  /** The `for file_path in sorted(json_files)` loop, extending `all_data` file by file. */
  method ProcessSorted(paths: seq<string>, files: map<string, FileRead>)
    returns (r: Result<seq<Json>, ImportError>)
    ensures r == Processed(paths, files)
  {
    var allData: seq<Json> := [];
    for i := 0 to |paths|
      invariant Processed(paths[..i], files) == Success(allData)
    {
      var filePath := paths[i];
      assert paths[..i + 1] == paths[..i] + [filePath];
      ProcessedSnoc(paths[..i], filePath, files);
      var c := Contribution(filePath, files);
      if c.Failure? {
        ProcessedStopsAtFailure(paths[..i + 1], paths[i + 1..], files);
        assert paths[..i + 1] + paths[i + 1..] == paths;
        return Failure(c.error);
      }
      allData := allData + c.value;
    }
    assert paths[..|paths|] == paths;
    return Success(allData);
  }

  // ---------------------------------------------------------------------------
  // Properties of the fold

  /** One more file: its contribution is appended, or its error ends the run. */
  lemma ProcessedSnoc(ps: seq<string>, p: string, files: map<string, FileRead>)
    ensures Processed(ps + [p], files) == Then(Processed(ps, files), Contribution(p, files))
  {
    assert (ps + [p])[..|ps|] == ps;
  }

  lemma ThenAssociative(x: Result<seq<Json>, ImportError>, y: Result<seq<Json>, ImportError>, z: Result<seq<Json>, ImportError>)
    ensures Then(Then(x, y), z) == Then(x, Then(y, z))
  {
    if x.Success? && y.Success? && z.Success? {
      assert x.value + y.value + z.value == x.value + (y.value + z.value);
    }
  }

  /** Visiting `a` then `b` is the fold over `a + b`. */
  lemma {:induction false} ProcessedAppend(a: seq<string>, b: seq<string>, files: map<string, FileRead>)
    ensures Processed(a + b, files) == Then(Processed(a, files), Processed(b, files))
    decreases |b|
  {
    if b == [] {
      assert a + b == a;
      if Processed(a, files).Success? {
        assert Processed(a, files).value + [] == Processed(a, files).value;
      }
    } else {
      var init, last := b[..|b| - 1], b[|b| - 1];
      assert a + b == (a + init) + [last];
      assert b == init + [last];
      ProcessedSnoc(a + init, last, files);
      ProcessedSnoc(init, last, files);
      ProcessedAppend(a, init, files);
      ThenAssociative(Processed(a, files), Processed(init, files), Contribution(last, files));
    }
  }

  /** Once a file raises, nothing after it runs and the run fails with that file's error. */
  lemma ProcessedStopsAtFailure(a: seq<string>, b: seq<string>, files: map<string, FileRead>)
    requires Processed(a, files).Failure?
    ensures Processed(a + b, files) == Processed(a, files)
  {
    ProcessedAppend(a, b, files);
  }

  /** A file that adds nothing (undecodable, no `data`, or a falsy one) leaves the rest of the run as it was. */
  lemma SkippedFileIsInvisible(a: seq<string>, p: string, b: seq<string>, files: map<string, FileRead>)
    requires Contribution(p, files) == Success([])
    ensures Processed(a + [p] + b, files) == Processed(a + b, files)
  {
    ProcessedAppend(a + [p], b, files);
    ProcessedAppend(a, [p], files);
    ProcessedAppend(a, b, files);
    assert [p][..0] == [];
    match Processed(a, files)
    case Failure(_) =>
    case Success(x) => assert x + [] == x;
  }

  /** The run fails exactly when some selected file raises, and then with the first such file's error. */
  lemma {:induction false} ProcessedFailsAtFirstError(paths: seq<string>, files: map<string, FileRead>)
    ensures Processed(paths, files).Success? <==> forall i :: 0 <= i < |paths| ==> Contribution(paths[i], files).Success?
    ensures Processed(paths, files).Failure? ==>
      exists i :: 0 <= i < |paths| && Contribution(paths[i], files) == Processed(paths, files) &&
        forall j :: 0 <= j < i ==> Contribution(paths[j], files).Success?
  {
    if paths != [] {
      var init := paths[..|paths| - 1];
      ProcessedFailsAtFirstError(init, files);
      assert forall i :: 0 <= i < |init| ==> init[i] == paths[i];
    }
  }

  /** With every file contributing, the result is the contributions of the files joined in order. */
  lemma {:induction false} ProcessedJoinsData(paths: seq<string>, files: map<string, FileRead>, k: nat)
    requires k < |paths|
    requires forall i :: 0 <= i < |paths| ==> Contribution(paths[i], files).Success?
    ensures Processed(paths, files).Success? && Processed(paths[..k], files).Success? && Processed(paths[k + 1..], files).Success?
    ensures Processed(paths, files).value ==
      Processed(paths[..k], files).value + Contribution(paths[k], files).value + Processed(paths[k + 1..], files).value
  {
    ProcessedFailsAtFirstError(paths, files);
    ProcessedFailsAtFirstError(paths[..k], files);
    ProcessedFailsAtFirstError(paths[k + 1..], files);
    assert paths == paths[..k] + [paths[k]] + paths[k + 1..];
    ProcessedAppend(paths[..k] + [paths[k]], paths[k + 1..], files);
    ProcessedAppend(paths[..k], [paths[k]], files);
    assert [paths[k]][..0] == [];
  }

  /** The result does not depend on the order the directory lists its entries in. */
  lemma ListingOrderIrrelevant(dir: string, n1: seq<string>, n2: seq<string>, files: map<string, FileRead>)
    requires multiset(n1) == multiset(n2)
    ensures Processed(SortStrings(Glob(dir, n1)), files) == Processed(SortStrings(Glob(dir, n2)), files)
  {
    GlobPermutes(dir, n1, n2);
    SortIgnoresListingOrder(Glob(dir, n1), Glob(dir, n2));
  }
}
