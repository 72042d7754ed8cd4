/** `main` of main.rs: read the symbols, run `filter` on them in rounds of
    up to 30 threads, and append the accepted rows to output.csv. */
module Batch {
  import opened Wrappers
  import opened Keys
  import opened Screening = Filter
  import opened CompanyRecord = Company

  /** The most threads one round spawns. */
  const ROUND_SIZE: nat := 30

  /** How many rounds `n` symbols take. */
  function RoundCount(n: nat): nat
  {
    (n + ROUND_SIZE - 1) / ROUND_SIZE
  }

  /** Every round but the last is full; the last holds at least one symbol. */
  lemma RoundCountBounds(n: nat)
    ensures RoundCount(n) <= n
    ensures n == 0 <==> RoundCount(n) == 0
    ensures n > 0 ==> ROUND_SIZE * (RoundCount(n) - 1) < n <= ROUND_SIZE * RoundCount(n)
    ensures n > 1 ==> RoundCount(n) < n
  {
  }

  /** Where the `r`-th round ends (exclusive). */
  function RoundEnd(n: nat, r: nat): (e: nat)
    ensures e <= n
    ensures r < RoundCount(n) ==> ROUND_SIZE * r < e
  {
    if ROUND_SIZE * r + ROUND_SIZE <= n then ROUND_SIZE * r + ROUND_SIZE else n
  }

  /** The symbol whose thread `main` joins in each round: the last one the
      round spawned. */
  function LastOfEachRound(symbols: seq<string>): (picked: seq<string>)
    ensures |picked| == RoundCount(|symbols|)
    ensures forall r :: 0 <= r < |picked| ==> picked[r] == symbols[RoundEnd(|symbols|, r) - 1]
  {
    RoundCountBounds(|symbols|);
    seq(RoundCount(|symbols|), r requires 0 <= r < RoundCount(|symbols|) => symbols[RoundEnd(|symbols|, r) - 1])
  }

  /** How a joined thread ended: it returned what `filter` returned, or it
      panicked. */
  datatype Joined = Finished(line: Option<Row>) | Panicked

  /** A joined thread puts a line in the file when it finished with one. */
  predicate Writes(j: Joined)
  {
    j.Finished? && j.line.Some?
  }

  function Written(j: Joined): (rows: seq<Row>)
    ensures |rows| <= 1
    ensures |rows| == 1 <==> Writes(j)
  {
    if Writes(j) then [j.line.value] else []
  }

  /** The thread `main` spawns for a symbol: it runs `filter` and, in this
      model, never panics. */
  function FilterThread(client: Client): (thread: string -> Joined)
    ensures forall name :: Writes(thread(name)) <==> Filter(name, client).Some?
  {
    name => Finished(Filter(name, client))
  }

  /** The rows that the threads for the first `k` symbols put in the file,
      joined in order. */
  function RowsOf(symbols: seq<string>, thread: string -> Joined, k: nat): (rows: seq<Row>)
    requires k <= |symbols|
    ensures |rows| <= k
  {
    if k == 0 then [] else RowsOf(symbols, thread, k - 1) + Written(thread(symbols[k - 1]))
  }

  /** The rows that the threads for `symbols` put in the file, joined in
      order. */
  function Rows(symbols: seq<string>, thread: string -> Joined): (rows: seq<Row>)
    ensures |rows| <= |symbols|
  {
    RowsOf(symbols, thread, |symbols|)
  }

  /** When every thread ends with a line, each symbol gives a row. */
  lemma {:induction false} RowsAllAccepted(symbols: seq<string>, thread: string -> Joined, k: nat)
    requires k <= |symbols|
    requires forall j :: 0 <= j < k ==> Writes(thread(symbols[j]))
    ensures |RowsOf(symbols, thread, k)| == k
  {
    if k > 0 {
      RowsAllAccepted(symbols, thread, k - 1);
    }
  }

  /** `main`, as written. Each round spawns up to `ROUND_SIZE` threads, one
      per symbol, then pops and joins only the last of them: the others are
      dropped, and their rows never reach the file. `thread` says how the
      thread spawned for a symbol ends (`FilterThread` for `filter` with the
      shared client); `file` is what output.csv held before. */
  method RunBatch(contents: string, thread: string -> Joined, file: seq<Row>)
    returns (allWork: nat, spawned: nat, workDone: nat, output: seq<Row>)
    ensures allWork == |ExtractKeys(contents)| && allWork >= 1
    ensures spawned == allWork
    ensures workDone == RoundCount(allWork)
    ensures output == file + Rows(LastOfEachRound(ExtractKeys(contents)), thread)
  {
    KeyCount(contents);
    allWork := |ExtractKeys(contents)|;
    spawned, workDone, output := ScreenInRounds(ExtractKeys(contents), thread, file);
  }

  /** The loop of `main` over the symbols. */
  method ScreenInRounds(symbols: seq<string>, thread: string -> Joined, file: seq<Row>)
    returns (spawned: nat, workDone: nat, output: seq<Row>)
    ensures spawned == |symbols|
    ensures workDone == RoundCount(|symbols|)
    ensures output == file + Rows(LastOfEachRound(symbols), thread)
  {
    var allWork := |symbols|;
    spawned := 0;
    workDone := 0;
    output := file;
    ghost var picked := LastOfEachRound(symbols);
    while true
      invariant spawned == RoundStart(allWork, workDone)
      invariant workDone == 0 || ROUND_SIZE * (workDone - 1) < allWork
      invariant workDone <= |picked|
      invariant output == file + RowsOf(picked, thread, workDone)
      decreases allWork - spawned
    {
      var handles := SpawnRound(symbols, thread, spawned);
      RoundAdvance(allWork, workDone, |handles|);
      spawned := spawned + |handles|;
      if handles == [] {
        break;
      }
      var joined := handles[|handles| - 1];
      handles := handles[..|handles| - 1];
      assert joined == thread(symbols[spawned - 1]);
      JoinedIsLastOfRound(symbols, workDone);
      assert picked[workDone] == symbols[spawned - 1];
      if joined.Finished? && joined.line.Some? {
        AppendAssociates(file, RowsOf(picked, thread, workDone), [joined.line.value]);
        output := output + [joined.line.value];
      }
      workDone := workDone + 1;
    }
  }

  /** With two symbols or more, some threads are never joined: even when every
      thread ends with a line, fewer rows reach the file than there are
      symbols, and the progress count stops short of the symbol count. */
  lemma {:induction false} RowsLostToUnjoinedThreads(symbols: seq<string>, thread: string -> Joined)
    requires |symbols| >= 2
    requires forall k :: 0 <= k < |symbols| ==> Writes(thread(symbols[k]))
    ensures |Rows(LastOfEachRound(symbols), thread)| == RoundCount(|symbols|) < |symbols|
    ensures |Rows(symbols, thread)| == |symbols|
  {
    RoundCountBounds(|symbols|);
    RowsAllAccepted(symbols, thread, |symbols|);
    var picked := LastOfEachRound(symbols);
    forall r | 0 <= r < |picked| ensures Writes(thread(picked[r])) {
      assert picked[r] == symbols[RoundEnd(|symbols|, r) - 1];
    }
    RowsAllAccepted(picked, thread, |picked|);
  }

  /** Two symbols whose threads both end with a line give one row. */
  lemma TwoAcceptedSymbolsGiveOneRow(a: string, b: string, thread: string -> Joined)
    requires Writes(thread(a)) && Writes(thread(b))
    ensures |Rows(LastOfEachRound([a, b]), thread)| == 1
  {
    RowsLostToUnjoinedThreads([a, b], thread);
  }

  /** `main` as evidently intended: every thread of a round is joined, in the
      order spawned, and each joined thread counts as one unit of work. */
  method RunBatchCorrected(contents: string, thread: string -> Joined, file: seq<Row>)
    returns (allWork: nat, spawned: nat, workDone: nat, output: seq<Row>)
    ensures allWork == |ExtractKeys(contents)| && allWork >= 1
    ensures spawned == allWork && workDone == allWork
    ensures output == file + Rows(ExtractKeys(contents), thread)
  {
    KeyCount(contents);
    allWork := |ExtractKeys(contents)|;
    spawned, workDone, output := ScreenInRoundsJoiningAll(ExtractKeys(contents), thread, file);
  }

  method ScreenInRoundsJoiningAll(symbols: seq<string>, thread: string -> Joined, file: seq<Row>)
    returns (spawned: nat, workDone: nat, output: seq<Row>)
    ensures spawned == |symbols| && workDone == |symbols|
    ensures output == file + Rows(symbols, thread)
  {
    spawned := 0;
    workDone := 0;
    output := file;
    while true
      invariant spawned == workDone <= |symbols|
      invariant output == file + RowsOf(symbols, thread, spawned)
      decreases |symbols| - spawned
    {
      var start := spawned;
      var handles := SpawnRound(symbols, thread, spawned);
      spawned := spawned + |handles|;
      if handles == [] {
        break;
      }
      var i := 0;
      while i < |handles|
        invariant i <= |handles|
        invariant workDone == start + i
        invariant output == file + RowsOf(symbols, thread, start + i)
      {
        assert handles[i] == thread(symbols[start + i]);
        if handles[i].Finished? && handles[i].line.Some? {
          AppendAssociates(file, RowsOf(symbols, thread, start + i), [handles[i].line.value]);
          output := output + [handles[i].line.value];
        }
        workDone := workDone + 1;
        i := i + 1;
      }
    }
  }

  /** Stated once so that the loops above need not rediscover it: keeps
      their proofs cheap. */
  lemma AppendAssociates<T>(a: seq<T>, b: seq<T>, c: seq<T>)
    ensures (a + b) + c == a + (b + c)
  {
  }

  /** The inner loop of `main`: spawn a thread for each of the next symbols,
      until `ROUND_SIZE` are running or the symbols run out. */
  method SpawnRound(symbols: seq<string>, thread: string -> Joined, start: nat)
    returns (handles: seq<Joined>)
    requires start <= |symbols|
    ensures |handles| == if start + ROUND_SIZE <= |symbols| then ROUND_SIZE else |symbols| - start
    ensures forall h :: 0 <= h < |handles| ==> handles[h] == thread(symbols[start + h])
  {
    handles := [];
    var next := start;
    while |handles| < ROUND_SIZE
      invariant |handles| <= ROUND_SIZE
      invariant next == start + |handles| <= |symbols|
      invariant forall h :: 0 <= h < |handles| ==> handles[h] == thread(symbols[start + h])
      decreases ROUND_SIZE - |handles|
    {
      if next < |symbols| {
        handles := handles + [thread(symbols[next])];
        next := next + 1;
      } else {
        break;
      }
    }
  }

  /** Where the `r`-th round begins. */
  function RoundStart(n: nat, r: nat): nat
  {
    if ROUND_SIZE * r <= n then ROUND_SIZE * r else n
  }

  lemma JoinedIsLastOfRound(symbols: seq<string>, r: nat)
    requires ROUND_SIZE * r < |symbols|
    ensures r < RoundCount(|symbols|)
    ensures LastOfEachRound(symbols)[r] == symbols[RoundEnd(|symbols|, r) - 1]
  {
  }

  /** What one round does to the counters: a round that spawns nothing
      comes after the last one; any other round is one of the
      `RoundCount(n)` rounds and moves on to where the next begins. */
  lemma RoundAdvance(n: nat, w: nat, size: nat)
    requires w == 0 || ROUND_SIZE * (w - 1) < n
    requires size == if RoundStart(n, w) + ROUND_SIZE <= n then ROUND_SIZE else n - RoundStart(n, w)
    ensures size == 0 ==> w == RoundCount(n)
    ensures size > 0 ==> ROUND_SIZE * w < n && w < RoundCount(n)
    ensures size > 0 ==> RoundStart(n, w) + size == RoundStart(n, w + 1) == RoundEnd(n, w)
  {
  }
}
