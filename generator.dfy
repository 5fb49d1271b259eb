/**
 The `DataGenerator` bookkeeping: which slice of the event array a call to
 `load` returns, the optional `small` cap, and the one-slot cache behind
 item access.

 Reading the trees of the input files is not modelled: `events` stands for
 the array that reading every input file yields, concatenated in file order,
 and the files are taken not to change between loads. The selection is an
 abstract predicate on events.
 */
module Generator {
  import opened Chunking
  import opened Setup

  /** Why a load or an item access fails: item access before anything was
      loaded finds no stored data, and a selection on an empty array divides
      by zero when its efficiency is reported. */
  datatype LoadError = NoDataLoaded | EmptyInputWithSelection

  function Min(a: int, b: int): int
  {
    if a <= b then a else b
  }

  /** The events the selection accepts, in their original order. */
  function Filter<Event>(s: seq<Event>, keep: Event -> bool): (r: seq<Event>)
    ensures |r| <= |s|
    ensures forall k :: 0 <= k < |r| ==> keep(r[k])
  {
    if s == [] then []
    else Filter(s[..|s| - 1], keep) + if keep(s[|s| - 1]) then [s[|s| - 1]] else []
  }

  /** Filtering a concatenation filters each part. */
  lemma {:induction false} FilterAppend<Event>(a: seq<Event>, b: seq<Event>, keep: Event -> bool)
    ensures Filter(a + b, keep) == Filter(a, keep) + Filter(b, keep)
    decreases |b|
  {
    if b == [] {
      assert a + b == a;
    } else {
      FilterAppend(a, b[..|b| - 1], keep);
      assert (a + b)[..|a + b| - 1] == a + b[..|b| - 1];
    }
  }

  /** Filtering keeps every accepted event, in order: the accepted event at
      position `k` lands at the position given by the number of accepted
      events before it. It keeps everything when all events are accepted. */
  lemma FilterKeepsAccepted<Event>(s: seq<Event>, keep: Event -> bool)
    ensures forall k :: 0 <= k < |s| && keep(s[k]) ==>
      |Filter(s[..k], keep)| < |Filter(s, keep)| && Filter(s, keep)[|Filter(s[..k], keep)|] == s[k]
    ensures (forall k :: 0 <= k < |s| ==> keep(s[k])) ==> Filter(s, keep) == s
  {
    forall k | 0 <= k < |s| && keep(s[k])
      ensures |Filter(s[..k], keep)| < |Filter(s, keep)| && Filter(s, keep)[|Filter(s[..k], keep)|] == s[k]
    {
      AcceptedEventKept(s, keep, k);
    }
    if forall k :: 0 <= k < |s| ==> keep(s[k]) {
      AllAcceptedKept(s, keep);
    }
  }

  lemma AcceptedEventKept<Event>(s: seq<Event>, keep: Event -> bool, k: int)
    requires 0 <= k < |s| && keep(s[k])
    ensures Filter(s, keep) == Filter(s[..k], keep) + [s[k]] + Filter(s[k + 1..], keep)
  {
    var pre, x, rest := s[..k], s[k], s[k + 1..];
    SplitAround(s, k);
    FilterAppend(pre, [x] + rest, keep);
    FilterCons(x, rest, keep);
    ConcatAssociates(Filter(pre, keep), [x], Filter(rest, keep));
  }

  lemma SplitAround<T>(s: seq<T>, k: int)
    requires 0 <= k < |s|
    ensures s == s[..k] + ([s[k]] + s[k + 1..])
  {
  }

  lemma ConcatAssociates<T>(a: seq<T>, b: seq<T>, c: seq<T>)
    ensures a + (b + c) == a + b + c
  {
  }

  lemma FilterCons<Event>(x: Event, rest: seq<Event>, keep: Event -> bool)
    requires keep(x)
    ensures Filter([x] + rest, keep) == [x] + Filter(rest, keep)
  {
    FilterAppend([x], rest, keep);
    assert [x][..0] == [];
  }

  lemma {:induction false} AllAcceptedKept<Event>(s: seq<Event>, keep: Event -> bool)
    requires forall k :: 0 <= k < |s| ==> keep(s[k])
    ensures Filter(s, keep) == s
  {
    if s != [] {
      AllAcceptedKept(s[..|s| - 1], keep);
      assert s[..|s| - 1] + [s[|s| - 1]] == s;
    }
  }

  /** The `small` cap: a positive cap shortens the range to at most that many
      entries from the same start; no cap or a non-positive one leaves the
      range as it is. */
  function Capped(r: Range, small: Option<int>): (c: Range)
    requires r.start <= r.stop
    ensures c.start == r.start && c.start <= c.stop <= r.stop
    ensures small.Some? && small.value > 0 ==> c.Size() <= small.value && (r.Size() <= small.value ==> c == r)
    ensures small.Some? && small.value > 0 && r.Size() >= small.value ==> c.Size() == small.value
    ensures small.None? || small.value <= 0 ==> c == r
  {
    if small.Some? && small.value > 0 then Range(r.start, Min(r.stop, r.start + small.value)) else r
  }

  class DataGenerator<Event> {
    const inputFiles: seq<string>
    const splittingStrategy: string
    const selection: Option<Event -> bool>
    const nSplit: int
    const events: seq<Event>
    /** The chunk index of the last load, -1 before the first one. */
    var index: int
    /** The slice the last load returned; none before the first load. */
    var data: Option<seq<Event>>

    /** What the constructor guarantees about the configuration. */
    predicate Configured()
    {
      0 < nSplit && KnownStrategy(splittingStrategy)
    }

    ghost predicate Valid()
      reads this
    {
      Configured() && -1 <= index < nSplit && (index == -1 <==> data.None?)
    }

    /** Stores a configuration the checks of `Configure` accepted. */
    constructor (inputFiles: seq<string>, splittingStrategy: string, nSplit: int,
                 selection: Option<Event -> bool>, events: seq<Event>)
      requires 0 < nSplit && KnownStrategy(splittingStrategy)
      ensures Valid()
      ensures this.inputFiles == inputFiles && this.splittingStrategy == splittingStrategy
      ensures this.nSplit == nSplit && this.selection == selection && this.events == events
      ensures index == -1 && data == None
    {
      this.inputFiles := inputFiles;
      this.splittingStrategy := splittingStrategy;
      this.nSplit := nSplit;
      this.selection := selection;
      this.events := events;
      index := -1;
      data := None;
    }

    /** The number of chunks reported to the training loop. */
    function Len(): (n: int)
      requires Configured()
      ensures n == nSplit && n > 0
    {
      nSplit
    }

    /** The array after the selection, if there is one. */
    function Selected(): (r: seq<Event>)
      ensures |r| <= |events|
      ensures selection.None? ==> r == events
    {
      match selection
      case None => events
      case Some(keep) => Filter(events, keep)
    }

    /** The entry range `load(index, small)` slices out of the selected array. */
    function EntryRange(index: int, small: Option<int>): (r: Range)
      requires Configured() && index < nSplit
      ensures 0 <= r.start <= r.stop <= |Selected()|
    {
      var n := if index >= 0 then nSplit else 1;
      var i := if index >= 0 then index else 0;
      ChunkWithinTotal(|Selected()|, n, i);
      var whole := if Lower(splittingStrategy) == "events" then Chunk(|Selected()|, n, i) else Range(0, |Selected()|);
      Capped(whole, small)
    }

    /** What `load(index, small)` returns. */
    function LoadResult(index: int, small: Option<int>): (r: Result<seq<Event>, LoadError>)
      requires Configured() && index < nSplit
      ensures r.Failure? ==> r.error == EmptyInputWithSelection
      ensures r.Success? ==> |r.value| <= |Selected()|
      ensures r.Success? && small.Some? && small.value > 0 ==> |r.value| <= small.value
    {
      if selection.Some? && |events| == 0 then Failure(EmptyInputWithSelection)
      else
        var r := EntryRange(index, small);
        Success(Selected()[r.start..r.stop])
    }

    /** Chooses the chunk, reads and filters the array, applies the cap,
        and records the chunk index and the slice. */
    method Load(index: int, small: Option<int>) returns (r: Result<seq<Event>, LoadError>)
      requires Valid() && index < nSplit
      modifies this
      ensures Valid()
      ensures r == LoadResult(index, small)
      ensures r.Success? ==> this.index == (if index >= 0 then index else 0) && data == Some(r.value)
      ensures r.Failure? ==> this.index == old(this.index) && data == old(data)
    {
      var n, i := nSplit, index;
      if index < 0 {
        n, i := 1, 0;
      }
      if Lower(splittingStrategy) == "files" {
        // The file range is computed and then never used: every file is read.
        var fileRange := Chunk(|inputFiles|, n, i);
      }
      var arr := events;
      if selection.Some? {
        arr := Filter(events, selection.value);
        if |events| == 0 {
          return Failure(EmptyInputWithSelection);
        }
      }
      var entryStart, entryStop := 0, |arr|;
      if Lower(splittingStrategy) == "events" {
        ChunkWithinTotal(|arr|, n, i);
        var c := Chunk(|arr|, n, i);
        entryStart, entryStop := c.start, c.stop;
      }
      if small.Some? && small.value > 0 {
        entryStop := Min(entryStop, entryStart + small.value);
      }
      this.index := i;
      data := Some(arr[entryStart..entryStop]);
      r := Success(arr[entryStart..entryStop]);
    }

    /** Item access: the stored slice when `index` is the recorded chunk
        index, otherwise a fresh load of that chunk without a cap. */
    method GetItem(index: int) returns (r: Result<seq<Event>, LoadError>)
      requires Valid() && index < nSplit
      modifies this
      ensures Valid()
      ensures index == old(this.index) ==>
        this.index == old(this.index) && data == old(data) &&
        r == if data.Some? then Success(data.value) else Failure(NoDataLoaded)
      ensures index != old(this.index) ==> r == LoadResult(index, None)
      ensures index != old(this.index) && r.Success? ==>
        this.index == (if index >= 0 then index else 0) && data == Some(r.value)
      ensures index != old(this.index) && r.Failure? ==> this.index == old(this.index) && data == old(data)
    {
      if index == this.index {
        if data.None? {
          return Failure(NoDataLoaded);
        }
        return Success(data.value);
      }
      r := Load(index, None);
    }

    /** The selected array holds exactly the accepted events, in their
        order: only accepted events, and each accepted event at the position
        given by the number of accepted events before it. */
    lemma SelectedKeepsAccepted()
      ensures selection.Some? ==> forall k :: 0 <= k < |Selected()| ==> selection.value(Selected()[k])
      ensures selection.Some? ==> forall k :: 0 <= k < |events| && selection.value(events[k]) ==>
        |Filter(events[..k], selection.value)| < |Selected()| &&
        Selected()[|Filter(events[..k], selection.value)|] == events[k]
    {
      if selection.Some? {
        FilterKeepsAccepted(events, selection.value);
      }
    }

    /** A load without a chunk index takes the whole selected array under
        either strategy. */
    lemma LoadAllTakesEverything(index: int)
      requires Configured() && index < 0
      ensures EntryRange(index, None) == Range(0, |Selected()|)
    {
      SingleChunkIsWhole(|Selected()|);
    }

    /** Under the `events` strategy a load with a chunk index takes exactly
        that chunk of the selected array. */
    lemma LoadEventsTakesChunk(index: int)
      requires Configured() && Lower(splittingStrategy) == "events" && 0 <= index < nSplit
      ensures EntryRange(index, None) == Chunk(|Selected()|, nSplit, index)
    {
    }

    /** Under the `files` strategy every load takes the whole selected array,
        whatever the chunk index. */
    lemma LoadFilesTakesEverything(index: int)
      requires Configured() && Lower(splittingStrategy) == "files" && index < nSplit
      ensures EntryRange(index, None) == Range(0, |Selected()|)
      ensures LoadResult(index, None).Success? ==> LoadResult(index, None).value == Selected()
    {
    }

    /** A load fails only when a selection meets an empty array. */
    lemma LoadFailsIff(index: int, small: Option<int>)
      requires Configured() && index < nSplit
      ensures LoadResult(index, small).Failure? <==> selection.Some? && events == []
      ensures LoadResult(index, small).Success? ==>
        |LoadResult(index, small).value| == EntryRange(index, small).Size()
    {
    }

    /** The slices of chunks `0 .. m-1`, concatenated in index order. */
    function Batches(m: int): seq<Event>
      requires Configured() && 0 <= m <= nSplit && !(selection.Some? && events == [])
      decreases m
    {
      if m == 0 then [] else Batches(m - 1) + LoadResult(m - 1, None).value
    }

    /** Under the `events` strategy, loading chunks `0 .. nSplit-1` in turn
        hands out every selected event exactly once, in order. */
    lemma EventsBatchesCoverSelection()
      requires Configured() && Lower(splittingStrategy) == "events" && !(selection.Some? && events == [])
      ensures Batches(nSplit) == Selected()
    {
      BatchesArePieces(nSplit);
      ChunksCoverSequence(Selected(), nSplit);
    }

    lemma {:induction false} BatchesArePieces(m: int)
      requires Configured() && Lower(splittingStrategy) == "events" && !(selection.Some? && events == [])
      requires 0 <= m <= nSplit
      ensures Batches(m) == Pieces(Selected(), nSplit, m)
    {
      if m > 0 {
        BatchesArePieces(m - 1);
        LoadEventsTakesChunk(m - 1);
      }
    }

    /** A load without a chunk index records chunk index 0 although it holds
        the whole array: under the `events` strategy with at least two chunks
        and two selected events, that slice is longer than chunk 0. */
    lemma LoadAllRecordedAsChunkZero()
      requires Configured() && Lower(splittingStrategy) == "events" && !(selection.Some? && events == [])
      requires 2 <= nSplit && 2 <= |Selected()|
      ensures |LoadResult(0, None).value| < |LoadResult(-1, None).value|
    {
      LoadAllTakesEverything(-1);
      LoadEventsTakesChunk(0);
      FirstChunkIsPartial(|Selected()|, nSplit);
    }
  }

  /** The constructor: collects the input files, checks the strategy and the
      split, and stores the configuration; nothing is loaded yet. */
  method NewDataGenerator<Event>(inputs: seq<InputPath>, strategy: string, nSplit: SplitArg,
                                 selection: Option<Event -> bool>, events: seq<Event>)
    returns (r: Result<DataGenerator<Event>, InitError>)
    ensures r.Failure? <==> Configure(inputs, strategy, nSplit).Failure?
    ensures r.Failure? ==> r.error == Configure(inputs, strategy, nSplit).error
    ensures r.Success? ==>
      var g, config := r.value, Configure(inputs, strategy, nSplit).value;
      fresh(g) && g.Valid() && g.index == -1 && g.data == None &&
      g.inputFiles == config.files && g.nSplit == config.nSplit &&
      g.splittingStrategy == strategy && g.selection == selection && g.events == events
  {
    var files := CollectInputFiles(inputs);
    if files.Failure? {
      return Failure(files.error);
    }
    var resolved := ResolveSplit(strategy, nSplit, |files.value|);
    if resolved.Failure? {
      return Failure(resolved.error);
    }
    ResolveSplitSucceedsIff(strategy, nSplit, |files.value|);
    var g := new DataGenerator(files.value, strategy, resolved.value, selection, events);
    return Success(g);
  }

  /** Loading without a chunk index and then asking for item 0 under the
      `events` strategy: the item comes from the cache, so it is the whole
      selected array and longer than chunk 0. */
  method LoadAllThenItemZero<Event>(g: DataGenerator<Event>) returns (all: seq<Event>, item: seq<Event>)
    requires g.Valid() && Lower(g.splittingStrategy) == "events" && !(g.selection.Some? && g.events == [])
    requires 2 <= g.nSplit && 2 <= |g.Selected()|
    modifies g
    ensures all == item == g.Selected()
    ensures |g.LoadResult(0, None).value| < |item|
  {
    var loaded := g.Load(-1, None);
    g.LoadAllTakesEverything(-1);
    all := loaded.value;
    var served := g.GetItem(0);
    item := served.value;
    g.LoadAllRecordedAsChunkZero();
  }
}
