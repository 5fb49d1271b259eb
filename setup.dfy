/**
 What the `DataGenerator` constructor does before it stores anything: it
 collects the `.root` input files (expanding directories one level) and
 checks the splitting strategy and the number of chunks.

 The filesystem is not modelled: whether a name is a directory and what the
 directory lists are given with each input name.
 */
module Setup {

  datatype Option<T> = None | Some(value: T)

  datatype Result<T, E> = Success(value: T) | Failure(error: E)

  /** An input name as the constructor receives it, together with what the
      filesystem says about it at construction time. */
  datatype InputPath = InputPath(name: string, isDir: bool, listing: seq<string>)

  /** Why construction fails. `BadSplit` stands for every failure of the
      split check: the source's message there names an undefined variable, so
      it raises a name error, and a non-numeric split value raises a type
      error when it is compared. */
  datatype InitError = UnknownInput(name: string) | UnknownStrategy | BadSplit

  /** The `n_split` argument: an integer, a floating-point number, or any
      other value (a boolean, a string, nothing), which the split check
      rejects. Negative values of other numeric types are not modelled. */
  datatype SplitArg = IntArg(n: int) | FloatArg(x: real) | OtherArg

  /** The configuration a successful construction stores. */
  datatype Config = Config(files: seq<string>, nSplit: int)

  const RootSuffix: string := ".root"

  predicate EndsWith(s: string, suffix: string)
  {
    |suffix| <= |s| && s[|s| - |suffix|..] == suffix
  }

  predicate HasRootSuffix(name: string)
  {
    EndsWith(name, RootSuffix)
  }

  /** Joining a directory and a name it lists; the names a directory lists
      never contain a separator. */
  function JoinPath(dir: string, name: string): (p: string)
    ensures dir <= p && EndsWith(p, name) && |p| >= |dir| + |name|
  {
    if dir == [] || dir[|dir| - 1] == '/' then dir + name else dir + "/" + name
  }

  /** The `.root` entries of a directory listing, joined to the directory, in
      listing order. */
  function RootFilesIn(dir: string, names: seq<string>): (files: seq<string>)
    ensures |files| <= |names|
  {
    if names == [] then []
    else
      var last := names[|names| - 1];
      RootFilesIn(dir, names[..|names| - 1]) + if HasRootSuffix(last) then [JoinPath(dir, last)] else []
  }

  /** The input file list the constructor builds, or the first input name that
      is neither a `.root` file nor a directory. A name ending in `.root` is
      taken as a file even when it is a directory. */
  function InputFiles(inputs: seq<InputPath>): (r: Result<seq<string>, InitError>)
    ensures r.Failure? ==> r.error.UnknownInput?
  {
    if inputs == [] then Success([])
    else
      var last := inputs[|inputs| - 1];
      match InputFiles(inputs[..|inputs| - 1])
      case Failure(e) => Failure(e)
      case Success(files) =>
        if HasRootSuffix(last.name) then Success(files + [last.name])
        else if last.isDir then Success(files + RootFilesIn(last.name, last.listing))
        else Failure(UnknownInput(last.name))
  }

  /** The constructor's loop over its inputs, appending to the file list. */
  method CollectInputFiles(inputs: seq<InputPath>) returns (r: Result<seq<string>, InitError>)
    ensures r == InputFiles(inputs)
  {
    var files: seq<string> := [];
    var i := 0;
    while i < |inputs|
      invariant 0 <= i <= |inputs|
      invariant InputFiles(inputs[..i]) == Success(files)
    {
      var entry := inputs[i];
      assert inputs[..i + 1][..i] == inputs[..i];
      if HasRootSuffix(entry.name) {
        files := files + [entry.name];
      } else if entry.isDir {
        var found := ListRootFiles(entry.name, entry.listing);
        files := files + found;
      } else {
        FailurePersists(inputs, i + 1);
        return Failure(UnknownInput(entry.name));
      }
      i := i + 1;
    }
    assert inputs[..i] == inputs;
    return Success(files);
  }

  /** The constructor's inner loop over a directory listing. */
  method ListRootFiles(dir: string, names: seq<string>) returns (found: seq<string>)
    ensures found == RootFilesIn(dir, names)
  {
    found := [];
    var j := 0;
    while j < |names|
      invariant 0 <= j <= |names|
      invariant found == RootFilesIn(dir, names[..j])
    {
      assert names[..j + 1][..j] == names[..j];
      if HasRootSuffix(names[j]) {
        found := found + [JoinPath(dir, names[j])];
      }
      j := j + 1;
    }
    assert names[..j] == names;
  }

  /** Once a prefix of the inputs fails, the whole input list fails the same way. */
  lemma {:induction false} FailurePersists(inputs: seq<InputPath>, k: nat)
    requires k <= |inputs| && InputFiles(inputs[..k]).Failure?
    ensures InputFiles(inputs) == InputFiles(inputs[..k])
    decreases |inputs| - k
  {
    if k < |inputs| {
      assert inputs[..k + 1][..k] == inputs[..k];
      FailurePersists(inputs, k + 1);
    } else {
      assert inputs[..k] == inputs;
    }
  }

  /** A joined name ends with the name that was joined. */
  lemma JoinKeepsSuffix(dir: string, name: string)
    requires HasRootSuffix(name)
    ensures HasRootSuffix(JoinPath(dir, name))
  {
    var p := JoinPath(dir, name);
    assert p[|p| - |name|..] == name;
    assert p[|p| - |RootSuffix|..] == name[|name| - |RootSuffix|..];
  }

  /** The entries taken from a directory are exactly its `.root` entries:
      every one taken ends in `.root`, and every `.root` entry is taken,
      joined to the directory. */
  lemma {:induction false} RootFilesInAreRootFiles(dir: string, names: seq<string>)
    ensures forall f <- RootFilesIn(dir, names) :: HasRootSuffix(f)
    ensures forall j :: 0 <= j < |names| && HasRootSuffix(names[j]) ==> JoinPath(dir, names[j]) in RootFilesIn(dir, names)
  {
    if names != [] {
      var init, last := names[..|names| - 1], names[|names| - 1];
      RootFilesInAreRootFiles(dir, init);
      if HasRootSuffix(last) {
        JoinKeepsSuffix(dir, last);
      }
      forall j | 0 <= j < |names| && HasRootSuffix(names[j])
        ensures JoinPath(dir, names[j]) in RootFilesIn(dir, names)
      {
        if j < |init| {
          assert names[j] == init[j];
        }
      }
    }
  }

  /** The collected list holds only `.root` files, and it holds every input
      named `.root` and every `.root` entry of every listed directory. */
  lemma {:induction false} InputFilesAreRootFiles(inputs: seq<InputPath>)
    requires InputFiles(inputs).Success?
    ensures forall f <- InputFiles(inputs).value :: HasRootSuffix(f)
    ensures forall k :: 0 <= k < |inputs| && HasRootSuffix(inputs[k].name) ==> inputs[k].name in InputFiles(inputs).value
    ensures forall k, j ::
      (0 <= k < |inputs| && !HasRootSuffix(inputs[k].name) && inputs[k].isDir &&
       0 <= j < |inputs[k].listing| && HasRootSuffix(inputs[k].listing[j])) ==>
      JoinPath(inputs[k].name, inputs[k].listing[j]) in InputFiles(inputs).value
  {
    if inputs != [] {
      var init, last := inputs[..|inputs| - 1], inputs[|inputs| - 1];
      InputFilesAreRootFiles(init);
      RootFilesInAreRootFiles(last.name, last.listing);
      var files := InputFiles(init).value;
      assert forall f <- files :: f in InputFiles(inputs).value;
      forall k | 0 <= k < |inputs| && HasRootSuffix(inputs[k].name)
        ensures inputs[k].name in InputFiles(inputs).value
      {
        if k < |init| {
          assert inputs[k] == init[k];
        }
      }
      forall k, j | 0 <= k < |inputs| && !HasRootSuffix(inputs[k].name) && inputs[k].isDir &&
        0 <= j < |inputs[k].listing| && HasRootSuffix(inputs[k].listing[j])
        ensures JoinPath(inputs[k].name, inputs[k].listing[j]) in InputFiles(inputs).value
      {
        if k < |init| {
          assert inputs[k] == init[k];
        }
      }
    }
  }

  /** Predicate for an input the constructor knows what to do with. */
  predicate Usable(p: InputPath)
  {
    HasRootSuffix(p.name) || p.isDir
  }

  /** Collection succeeds exactly when every input is usable; when it fails,
      it names the first input that is not. */
  lemma {:induction false} InputFilesFailIff(inputs: seq<InputPath>)
    ensures InputFiles(inputs).Success? <==> forall k :: 0 <= k < |inputs| ==> Usable(inputs[k])
    ensures InputFiles(inputs).Failure? ==>
      exists k :: 0 <= k < |inputs| && !Usable(inputs[k]) && InputFiles(inputs).error == UnknownInput(inputs[k].name) &&
        forall j :: 0 <= j < k ==> Usable(inputs[j])
  {
    if inputs != [] {
      var init := inputs[..|inputs| - 1];
      InputFilesFailIff(init);
      assert forall k :: 0 <= k < |init| ==> init[k] == inputs[k];
    }
  }

  /** ASCII lower-casing of one character. */
  function LowerChar(c: char): char
  {
    if 'A' <= c <= 'Z' then (c as int + 32) as char else c
  }

  /** Lower-casing of a string, character by character. */
  function Lower(s: string): string
  {
    seq(|s|, k requires 0 <= k < |s| => LowerChar(s[k]))
  }

  /** The strategy check, which ignores case. */
  predicate KnownStrategy(strategy: string)
  {
    Lower(strategy) == "files" || Lower(strategy) == "events"
  }

  predicate IsNegative(a: SplitArg)
  {
    (a.IntArg? && a.n < 0) || (a.FloatArg? && a.x < 0.0)
  }

  /** The strategy check, the per-file substitution and the split check of the
      constructor. The substitution compares the strategy exactly, not
      ignoring case. */
  function ResolveSplit(strategy: string, nSplit: SplitArg, nFiles: nat): (r: Result<int, InitError>)
    ensures r.Success? ==> KnownStrategy(strategy) && r.value > 0
    ensures r.Failure? ==> r.error == if KnownStrategy(strategy) then BadSplit else UnknownStrategy
  {
    if !KnownStrategy(strategy) then Failure(UnknownStrategy)
    else
      var effective := if strategy == "files" && IsNegative(nSplit) then IntArg(nFiles) else nSplit;
      if effective.IntArg? && effective.n > 0 then Success(effective.n) else Failure(BadSplit)
  }

  /** The split is resolved exactly when the strategy is known and either a
      positive integer was given or the exact strategy `files` with a negative
      number asks for one chunk per file and there is at least one file. The
      resolved count is positive. */
  lemma ResolveSplitSucceedsIff(strategy: string, nSplit: SplitArg, nFiles: nat)
    ensures ResolveSplit(strategy, nSplit, nFiles).Success? <==>
      KnownStrategy(strategy) &&
      ((strategy == "files" && IsNegative(nSplit) && nFiles > 0) || (nSplit.IntArg? && nSplit.n > 0))
    ensures ResolveSplit(strategy, nSplit, nFiles).Success? ==>
      ResolveSplit(strategy, nSplit, nFiles).value > 0 &&
      ResolveSplit(strategy, nSplit, nFiles).value == (if nSplit.IntArg? && nSplit.n > 0 then nSplit.n else nFiles)
    ensures ResolveSplit(strategy, nSplit, nFiles).Failure? ==>
      ResolveSplit(strategy, nSplit, nFiles).error == (if KnownStrategy(strategy) then BadSplit else UnknownStrategy)
  {
  }

  /** Per-file splitting with an empty file list fails, and so does per-file
      splitting requested with a capitalised strategy name, which passes the
      strategy check but not the substitution. */
  lemma PerFileSplitEdgeCases(nFiles: nat)
    ensures ResolveSplit("files", IntArg(-1), nFiles) == if nFiles > 0 then Success(nFiles) else Failure(BadSplit)
    ensures KnownStrategy("Files") && ResolveSplit("Files", IntArg(-1), nFiles) == Failure(BadSplit)
    ensures ResolveSplit("files", FloatArg(-1.0), nFiles) == if nFiles > 0 then Success(nFiles) else Failure(BadSplit)
    ensures ResolveSplit("events", FloatArg(2.0), nFiles) == Failure(BadSplit)
  {
    assert Lower("Files") == "files";
    assert Lower("files") == "files";
    assert Lower("events") == "events";
  }

  /** Everything the constructor checks, in the order it checks it. */
  function Configure(inputs: seq<InputPath>, strategy: string, nSplit: SplitArg): (r: Result<Config, InitError>)
    ensures r.Success? ==> KnownStrategy(strategy) && r.value.nSplit > 0 && InputFiles(inputs) == Success(r.value.files)
    ensures r.Failure? && r.error.UnknownInput? ==> InputFiles(inputs) == Failure(r.error)
  {
    match InputFiles(inputs)
    case Failure(e) => Failure(e)
    case Success(files) =>
      match ResolveSplit(strategy, nSplit, |files|)
      case Failure(e) => Failure(e)
      case Success(n) => Success(Config(files, n))
  }

  /** A successful configuration has a known strategy, a positive number of
      chunks and only `.root` files. */
  lemma ConfigureValid(inputs: seq<InputPath>, strategy: string, nSplit: SplitArg)
    requires Configure(inputs, strategy, nSplit).Success?
    ensures KnownStrategy(strategy)
    ensures Configure(inputs, strategy, nSplit).value.nSplit > 0
    ensures forall f <- Configure(inputs, strategy, nSplit).value.files :: HasRootSuffix(f)
  {
    InputFilesAreRootFiles(inputs);
    ResolveSplitSucceedsIff(strategy, nSplit, |InputFiles(inputs).value|);
  }
}
