/** The worker pool of `ita check`: chunking, concurrent workers, and the ordered join. */
module ParallelCheck {
  import opened Types

  /** `check_worker_count`: a positive override or the machine's core count, at most one worker per file. */
  function WorkerCount(override: Option<nat>, cores: Option<nat>, files: nat): (jobs: nat)
    requires cores.Some? ==> cores.value > 0
    ensures 1 <= jobs <= (if files == 0 then 1 else files)
  {
    var wanted :=
      if override.Some? && override.value > 0 then override.value else if cores.Some? then cores.value else 1;
    var most := if files == 0 then 1 else files;
    if wanted < most then wanted else most
  }

  /** `len.div_ceil(jobs).max(1)` */
  function ChunkSize(files: nat, jobs: nat): (size: nat)
    requires jobs > 0
    ensures size > 0 && size * jobs >= files
  {
    var up := (files + jobs - 1) / jobs;
    assert files <= up * jobs;
    if up == 0 then 1 else up
  }

  /** `slice::chunks` */
  function Chunks<T>(s: seq<T>, size: nat): (cs: seq<seq<T>>)
    requires size > 0
    ensures forall i :: 0 <= i < |cs| ==> 0 < |cs[i]| <= size
    decreases |s|
  {
    if s == [] then [] else if |s| <= size then [s] else [s[..size]] + Chunks(s[size..], size)
  }

  function Flatten<T>(cs: seq<seq<T>>): seq<T> { if cs == [] then [] else cs[0] + Flatten(cs[1..]) }

  function Mapped<T, U>(s: seq<T>, f: T -> U): (r: seq<U>)
    ensures |r| == |s| && forall i :: 0 <= i < |s| ==> r[i] == f(s[i])
  {
    seq(|s|, i requires 0 <= i < |s| => f(s[i]))
  }

  lemma {:induction false} FlattenChunks<T>(s: seq<T>, size: nat)
    requires size > 0
    ensures Flatten(Chunks(s, size)) == s
    decreases |s|
  {
    if s != [] {
      if |s| <= size {
        assert [s][1..] == [];
      } else {
        FlattenChunks(s[size..], size);
        assert s == s[..size] + s[size..];
      }
    }
  }

  /** Only the last chunk can be short. */
  lemma {:induction false} ChunkCount<T>(s: seq<T>, size: nat)
    requires size > 0 && s != []
    ensures |Chunks(s, size)| >= 1 && (|Chunks(s, size)| - 1) * size < |s| <= |Chunks(s, size)| * size
    decreases |s|
  {
    if |s| > size {
      ChunkCount(s[size..], size);
      var rest := |Chunks(s[size..], size)|;
      assert rest * size == (rest - 1) * size + size && (rest + 1) * size == rest * size + size;
    }
  }

  lemma AtMostJobs<T>(s: seq<T>, jobs: nat)
    requires jobs > 0
    ensures |Chunks(s, ChunkSize(|s|, jobs))| <= jobs
  {
    if s != [] {
      var size := ChunkSize(|s|, jobs);
      var count := |Chunks(s, size)|;
      ChunkCount(s, size);
      if count > jobs { Monotone(jobs, count - 1, size); }
    }
  }

  lemma Monotone(a: nat, b: nat, size: nat)
    requires a <= b
    ensures a * size <= b * size
  {}

  // ----- workers under any schedule -----

  /** Each worker's results so far. */
  type Pool<U> = seq<seq<U>>

  function Idle<U>(workers: nat): (p: Pool<U>)
    ensures |p| == workers && forall w :: 0 <= w < workers ==> p[w] == []
  {
    seq(workers, _ => [])
  }

  /** The scheduler lets worker `w` check its next file; a finished worker does nothing. */
  function Tick<T, U>(chunks: seq<seq<T>>, f: T -> U, p: Pool<U>, w: nat): (r: Pool<U>)
    requires |p| == |chunks|
    ensures |r| == |p|
  {
    if w < |p| && |p[w]| < |chunks[w]| then p[w := p[w] + [f(chunks[w][|p[w]|])]] else p
  }

  function Schedule<T, U>(chunks: seq<seq<T>>, f: T -> U, p: Pool<U>, order: seq<nat>): (r: Pool<U>)
    requires |p| == |chunks|
    ensures |r| == |p|
    decreases |order|
  {
    if order == [] then p else Schedule(chunks, f, Tick(chunks, f, p, order[0]), order[1..])
  }

  /** Every worker has checked a prefix of its own chunk. */
  ghost predicate Progress<T, U>(chunks: seq<seq<T>>, f: T -> U, p: Pool<U>) {
    && |p| == |chunks|
    && forall w :: 0 <= w < |p| ==> |p[w]| <= |chunks[w]| && p[w] == Mapped(chunks[w][..|p[w]|], f)
  }

  ghost predicate Finished<T, U>(chunks: seq<seq<T>>, p: Pool<U>) {
    |p| == |chunks| && forall w :: 0 <= w < |p| ==> |p[w]| == |chunks[w]|
  }

  lemma TickProgress<T, U>(chunks: seq<seq<T>>, f: T -> U, p: Pool<U>, w: nat)
    requires Progress(chunks, f, p)
    ensures Progress(chunks, f, Tick(chunks, f, p, w))
  {
    if w < |p| && |p[w]| < |chunks[w]| {
      var k := |p[w]|;
      assert p[w] + [f(chunks[w][k])] == Mapped(chunks[w][..k + 1], f);
    }
  }

  lemma {:induction false} ScheduleProgress<T, U>(chunks: seq<seq<T>>, f: T -> U, p: Pool<U>, order: seq<nat>)
    requires Progress(chunks, f, p)
    ensures Progress(chunks, f, Schedule(chunks, f, p, order))
    decreases |order|
  {
    if order != [] {
      TickProgress(chunks, f, p, order[0]);
      ScheduleProgress(chunks, f, Tick(chunks, f, p, order[0]), order[1..]);
    }
  }

  lemma {:induction false} JoinFinished<T, U>(chunks: seq<seq<T>>, f: T -> U, p: Pool<U>)
    requires Progress(chunks, f, p) && Finished(chunks, p)
    ensures Flatten(p) == Mapped(Flatten(chunks), f)
    decreases |p|
  {
    if p != [] {
      assert chunks[0][..|p[0]|] == chunks[0];
      assert forall w :: 0 <= w < |p| - 1 ==> p[1..][w] == p[w + 1] && chunks[1..][w] == chunks[w + 1];
      JoinFinished(chunks[1..], f, p[1..]);
    }
  }

  /** How often the scheduler picks worker `w`. */
  function Turns(order: seq<nat>, w: nat): nat {
    if order == [] then 0 else (if order[0] == w then 1 else 0) + Turns(order[1..], w)
  }

  /** A worker advances by one file a turn until its chunk is done, whatever the others do. */
  lemma {:induction false} TurnsCount<T, U>(chunks: seq<seq<T>>, f: T -> U, p: Pool<U>, order: seq<nat>, w: nat)
    requires |p| == |chunks| && w < |p| && |p[w]| <= |chunks[w]|
    ensures var done := |p[w]| + Turns(order, w);
            |Schedule(chunks, f, p, order)[w]| == if done < |chunks[w]| then done else |chunks[w]|
    decreases |order|
  {
    if order != [] { TurnsCount(chunks, f, Tick(chunks, f, p, order[0]), order[1..], w); }
  }

  ghost predicate EnoughTurns<T>(chunks: seq<seq<T>>, order: seq<nat>) {
    forall w :: 0 <= w < |chunks| ==> Turns(order, w) >= |chunks[w]|
  }

  /** Whatever the worker count and the interleaving: a schedule finishes exactly when it gives every worker enough
      turns, and then joining in spawn order is the sequential map. */
  lemma JoinedIsSequential<T, U>(files: seq<T>, f: T -> U, jobs: nat, order: seq<nat>)
    requires jobs > 0
    ensures var chunks := Chunks(files, ChunkSize(|files|, jobs));
            var end := Schedule(chunks, f, Idle(|chunks|), order);
            && |chunks| <= jobs
            && (Finished(chunks, end) <==> EnoughTurns(chunks, order))
            && (Finished(chunks, end) ==> Flatten(end) == Mapped(files, f))
  {
    var size := ChunkSize(|files|, jobs);
    var chunks := Chunks(files, size);
    var end := Schedule(chunks, f, Idle(|chunks|), order);
    AtMostJobs(files, jobs);
    FlattenChunks(files, size);
    ScheduleProgress(chunks, f, Idle(|chunks|), order);
    forall w | 0 <= w < |chunks| ensures |end[w]| == |chunks[w]| <==> Turns(order, w) >= |chunks[w]| {
      TurnsCount(chunks, f, Idle(|chunks|), order, w);
    }
    if Finished(chunks, end) { JoinFinished(chunks, f, end); }
  }

  // ----- run_check -----

  datatype Output = Output(error: bool, blocks: nat, text: string, dark: seq<string>)

  /** What the sequential loop prints and reports. */
  function Report(outputs: seq<Output>): Output {
    if outputs == [] then Output(false, 0, "", [])
    else
      var r, o := Report(outputs[..|outputs| - 1]), outputs[|outputs| - 1];
      Output(r.error || o.error, r.blocks + o.blocks, r.text + o.text, r.dark + o.dark)
  }

  function Sum(ns: seq<nat>): nat { if ns == [] then 0 else ns[0] + Sum(ns[1..]) }

  lemma {:induction false} SumLast(ns: seq<nat>, n: nat)
    ensures Sum(ns + [n]) == Sum(ns) + n
    decreases |ns|
  {
    if ns == [] {
      assert ns + [n] == [n];
    } else {
      assert (ns + [n])[1..] == ns[1..] + [n];
      SumLast(ns[1..], n);
    }
  }

  lemma {:induction false} FlattenLast<T>(cs: seq<seq<T>>, c: seq<T>)
    ensures Flatten(cs + [c]) == Flatten(cs) + c
    decreases |cs|
  {
    if cs == [] {
      assert cs + [c] == [c];
    } else {
      assert (cs + [c])[1..] == cs[1..] + [c];
      FlattenLast(cs[1..], c);
      assert cs[0] + (Flatten(cs[1..]) + c) == cs[0] + Flatten(cs[1..]) + c;
    }
  }

  /** The check fails when some file does, counts all blocks, and prints and records everything in order. */
  ghost predicate Reports(r: Output, outputs: seq<Output>) {
    && (r.error <==> exists i :: 0 <= i < |outputs| && outputs[i].error)
    && r.blocks == Sum(Mapped(outputs, (o: Output) => o.blocks))
    && r.text == Flatten(Mapped(outputs, (o: Output) => o.text))
    && r.dark == Flatten(Mapped(outputs, (o: Output) => o.dark))
  }

  lemma {:induction false} ReportMeans(outputs: seq<Output>)
    ensures Reports(Report(outputs), outputs)
  {
    if outputs != [] {
      var n := |outputs| - 1;
      var front, last := outputs[..n], outputs[n];
      ReportMeans(front);
      assert outputs == front + [last];
      assert forall i :: 0 <= i < n ==> front[i] == outputs[i];
      LastMapped(front, last, (o: Output) => o.text);
      LastMapped(front, last, (o: Output) => o.dark);
      assert Mapped(outputs, (o: Output) => o.blocks) == Mapped(front, (o: Output) => o.blocks) + [last.blocks];
      SumLast(Mapped(front, (o: Output) => o.blocks), last.blocks);
    }
  }

  lemma LastMapped<T>(front: seq<Output>, last: Output, f: Output -> seq<T>)
    ensures Flatten(Mapped(front + [last], f)) == Flatten(Mapped(front, f)) + f(last)
  {
    assert Mapped(front + [last], f) == Mapped(front, f) + [f(last)];
    FlattenLast(Mapped(front, f), f(last));
  }

  lemma MappedConcat<T, U>(a: seq<T>, b: seq<T>, f: T -> U)
    ensures Mapped(a + b, f) == Mapped(a, f) + Mapped(b, f)
  {}

  /** The workers running as the scheduler pleases. */
  method RunWorkers<T, U>(chunks: seq<seq<T>>, f: T -> U, order: seq<nat>) returns (p: Pool<U>)
    ensures p == Schedule(chunks, f, Idle(|chunks|), order) && Progress(chunks, f, p)
  {
    p := Idle(|chunks|);
    for i := 0 to |order|
      invariant Progress(chunks, f, p)
      invariant Schedule(chunks, f, p, order[i..]) == Schedule(chunks, f, Idle(|chunks|), order)
    {
      assert order[i..][0] == order[i] && order[i..][1..] == order[i + 1..];
      TickProgress(chunks, f, p, order[i]);
      p := Tick(chunks, f, p, order[i]);
    }
    assert order[|order|..] == [];
  }

  /** `join`: waits until worker `w` is through with its chunk. */
  method Join<T, U>(chunks: seq<seq<T>>, f: T -> U, p: Pool<U>, w: nat) returns (r: Pool<U>)
    requires Progress(chunks, f, p) && w < |p|
    ensures Progress(chunks, f, r) && r[w] == Mapped(chunks[w], f)
  {
    r := p;
    while |r[w]| < |chunks[w]|
      invariant Progress(chunks, f, r)
      decreases |chunks[w]| - |r[w]|
    {
      TickProgress(chunks, f, r, w);
      r := Tick(chunks, f, r, w);
    }
    assert chunks[w][..|r[w]|] == chunks[w];
  }

  /** `handles.into_iter().flat_map(join)` */
  method JoinWorkers<T, U>(chunks: seq<seq<T>>, f: T -> U, start: Pool<U>) returns (outputs: seq<U>)
    requires Progress(chunks, f, start)
    ensures outputs == Mapped(Flatten(chunks), f)
  {
    var p := start;
    outputs := [];
    ghost var done: seq<T> := [];
    for i := 0 to |chunks|
      invariant Progress(chunks, f, p)
      invariant done + Flatten(chunks[i..]) == Flatten(chunks)
      invariant outputs == Mapped(done, f)
    {
      assert chunks[i..][1..] == chunks[i + 1..];
      p := Join(chunks, f, p, i);
      MappedConcat(done, chunks[i], f);
      outputs := outputs + p[i];
      done := done + chunks[i];
    }
    assert chunks[|chunks|..] == [];
  }

  method Render(outputs: seq<Output>) returns (report: Output)
    ensures report == Report(outputs) && Reports(report, outputs)
  {
    ReportMeans(outputs);
    report := Output(false, 0, "", []);
    for i := 0 to |outputs|
      invariant report == Report(outputs[..i])
    {
      assert outputs[..i + 1][..i] == outputs[..i];
      var o := outputs[i];
      report := Output(report.error || o.error, report.blocks + o.blocks, report.text + o.text, report.dark + o.dark);
    }
    assert outputs[..|outputs|] == outputs;
  }

  /** What `ita check` prints depends neither on the worker setting nor on how the scheduler interleaved the workers
      before they are joined. */
  method RunCheck<File>(files: seq<File>, check: File -> Output, override: Option<nat>, cores: Option<nat>,
                        order: seq<nat>)
    returns (report: Output)
    requires cores.Some? ==> cores.value > 0
    ensures report == Report(Mapped(files, check)) && Reports(report, Mapped(files, check))
  {
    var jobs := WorkerCount(override, cores, |files|);
    var chunks := Chunks(files, ChunkSize(|files|, jobs));
    FlattenChunks(files, ChunkSize(|files|, jobs));
    var pool := RunWorkers(chunks, check, order);
    var outputs := JoinWorkers(chunks, check, pool);
    report := Render(outputs);
  }
}
