/** The replay judge: pairs a parent commit's diagnostics with the fix's, by key, nearest line first. */
module Judge {
  import opened Types

  datatype Diag = Diag(line: int, key: string)

  datatype Survivor = Survivor(was: Diag, fixLine: int)

  datatype FileReport = FileReport(surviving: seq<Survivor>, silenced: seq<Diag>, added: seq<Diag>)

  function KeyList(diags: seq<Diag>): (r: seq<string>)
    ensures |r| == |diags| && forall i :: 0 <= i < |diags| ==> r[i] == diags[i].key
  {
    seq(|diags|, i requires 0 <= i < |diags| => diags[i].key)
  }

  function Keys(diags: seq<Diag>): multiset<string> { multiset(KeyList(diags)) }

  /** The parent side of each pair, and its fix side. */
  function Before(s: seq<Survivor>): (r: seq<Diag>)
    ensures |r| == |s| && forall i :: 0 <= i < |s| ==> r[i] == s[i].was
  {
    seq(|s|, i requires 0 <= i < |s| => s[i].was)
  }

  function After(s: seq<Survivor>): (r: seq<Diag>)
    ensures |r| == |s| && forall i :: 0 <= i < |s| ==> r[i] == Diag(s[i].fixLine, s[i].was.key)
  {
    seq(|s|, i requires 0 <= i < |s| => Diag(s[i].fixLine, s[i].was.key))
  }

  function Gap(a: int, b: int): nat { if a < b then b - a else a - b }

  function KeyCount(diags: seq<Diag>, key: string): nat { Keys(diags)[key] }

  // ----- keys as a multiset -----

  lemma KeysConcat(a: seq<Diag>, b: seq<Diag>)
    ensures Keys(a + b) == Keys(a) + Keys(b)
  {
    assert KeyList(a + b) == KeyList(a) + KeyList(b);
  }

  lemma KeysAppend(diags: seq<Diag>, d: Diag)
    ensures Keys(diags + [d]) == Keys(diags) + multiset{d.key}
  {
    assert KeyList(diags + [d]) == KeyList(diags) + [d.key];
  }

  lemma KeysDelete(a: seq<Diag>, d: Diag, b: seq<Diag>)
    ensures Keys(a + [d] + b) == Keys(a + b) + multiset{d.key}
  {
    KeysConcat(a + [d], b);
    KeysAppend(a, d);
    KeysConcat(a, b);
  }

  function Drop(s: seq<Diag>, at: nat): seq<Diag>
    requires at < |s|
  {
    s[..at] + s[at + 1..]
  }

  lemma DropOne(s: seq<Diag>, at: nat)
    requires at < |s|
    ensures Keys(s) == Keys(Drop(s, at)) + multiset{s[at].key}
    ensures multiset(s) == multiset(Drop(s, at)) + multiset{s[at]}
    ensures forall u :: u in Drop(s, at) ==> u in s
  {
    assert s == s[..at] + [s[at]] + s[at + 1..];
    KeysDelete(s[..at], s[at], s[at + 1..]);
  }

  lemma KeysMeaning(diags: seq<Diag>, key: string)
    ensures key in Keys(diags) <==> exists i :: 0 <= i < |diags| && diags[i].key == key
  {
    assert key in Keys(diags) <==> key in KeyList(diags);
  }

  // ----- one file -----

  /** What `min_by` compares: the line gap, or infinity for another key. */
  function Cost(u: Diag, d: Diag): Option<nat> { if u.key == d.key then Some(Gap(u.line, d.line)) else None }

  predicate Cheaper(a: Option<nat>, b: Option<nat>) { a.Some? && (b.None? || a.value < b.value) }

  ghost predicate Least(unused: seq<Diag>, d: Diag, idx: nat)
    requires idx < |unused|
  {
    forall j :: 0 <= j < |unused| ==> !Cheaper(Cost(unused[j], d), Cost(unused[idx], d))
  }

  /** What `min_by` picks. */
  function Pick(unused: seq<Diag>, d: Diag): (idx: Option<nat>)
    ensures idx.None? <==> unused == []
    ensures idx.Some? ==> idx.value < |unused|
    decreases |unused|
  {
    if unused == [] then None
    else
      var n := |unused| - 1;
      var best := Pick(unused[..n], d);
      if best.None? || Cheaper(Cost(unused[n], d), Cost(unused[best.value], d)) then Some(n) else best
  }

  /** The first index of least cost. */
  lemma {:induction false} PickLeast(unused: seq<Diag>, d: Diag)
    requires unused != []
    ensures Least(unused, d, Pick(unused, d).value)
    ensures var idx := Pick(unused, d).value;
            forall j :: 0 <= j < idx ==> Cheaper(Cost(unused[idx], d), Cost(unused[j], d))
    decreases |unused|
  {
    var init := unused[..|unused| - 1];
    if init != [] {
      PickLeast(init, d);
      assert forall j :: 0 <= j < |init| ==> init[j] == unused[j];
    }
  }

  method MinBy(unused: seq<Diag>, d: Diag) returns (idx: Option<nat>)
    ensures idx == Pick(unused, d)
  {
    idx := None;
    for i := 0 to |unused|
      invariant idx == Pick(unused[..i], d)
    {
      assert unused[..i + 1][..i] == unused[..i];
      if idx.None? || Cheaper(Cost(unused[i], d), Cost(unused[idx.value], d)) { idx := Some(i); }
    }
    assert unused[..|unused|] == unused;
  }

  /** No diagnostic of `pool` with the survivor's key lies nearer than the one it was paired with. */
  ghost predicate Closest(s: Survivor, pool: seq<Diag>) {
    forall u :: u in pool && u.key == s.was.key ==> Gap(s.fixLine, s.was.line) <= Gap(u.line, s.was.line)
  }

  /** Each pair was the nearest available: against everything left over and everything paired later. */
  ghost predicate NearestFirst(surviving: seq<Survivor>, left: seq<Diag>) {
    && (forall i :: 0 <= i < |surviving| ==> Closest(surviving[i], left))
    && forall i, j :: 0 <= i < j < |surviving| ==> Closest(surviving[i], [After(surviving)[j]])
  }

  ghost predicate ByLine(diags: seq<Diag>) {
    forall i, j :: 0 <= i < j < |diags| ==> diags[i].line <= diags[j].line
  }

  /** Every key splits exactly: survivors are the common part, the rest are the two surpluses. */
  ghost predicate Split(p: multiset<string>, f: multiset<string>, r: FileReport) {
    Parts(p, f, Keys(Before(r.surviving)), Keys(r.silenced), Keys(r.added))
  }

  /** The three equations of `Split`, on bare multisets. */
  ghost predicate Parts(p: multiset<string>, f: multiset<string>,
                        both: multiset<string>, gone: multiset<string>, left: multiset<string>) {
    both == p * f && gone == p - f && left == f - p
  }

  lemma PartsPaired(p: multiset<string>, f: multiset<string>, both: multiset<string>, gone: multiset<string>,
                    left: multiset<string>, key: string, rest: multiset<string>)
    requires Parts(p, f, both, gone, left) && left == rest + multiset{key}
    ensures Parts(p + multiset{key}, f, both + multiset{key}, gone, rest)
  {
    forall k ensures rest[k] == (f - (p + multiset{key}))[k] {
      assert left[k] == (rest + multiset{key})[k];
    }
  }

  lemma PartsSilenced(p: multiset<string>, f: multiset<string>, both: multiset<string>, gone: multiset<string>,
                      left: multiset<string>, key: string)
    requires Parts(p, f, both, gone, left) && key !in left
    ensures Parts(p + multiset{key}, f, both, gone + multiset{key}, left)
  {}

  /** Nothing is lost or invented on either side. */
  ghost predicate Conserves(parent: seq<Diag>, fix: seq<Diag>, r: FileReport) {
    && multiset(Before(r.surviving)) + multiset(r.silenced) == multiset(parent)
    && multiset(After(r.surviving)) + multiset(r.added) == multiset(fix)
  }

  function Paired(r: FileReport, d: Diag, idx: nat): FileReport
    requires idx < |r.added|
  {
    FileReport(r.surviving + [Survivor(d, r.added[idx].line)], r.silenced, Drop(r.added, idx))
  }

  lemma SidesAppend(surviving: seq<Survivor>, s: Survivor)
    ensures Before(surviving + [s]) == Before(surviving) + [s.was]
    ensures After(surviving + [s]) == After(surviving) + [Diag(s.fixLine, s.was.key)]
  {
    assert (surviving + [s])[..|surviving|] == surviving;
  }

  lemma PairedConserves(parent: seq<Diag>, fix: seq<Diag>, r: FileReport, d: Diag, idx: nat)
    requires Conserves(parent, fix, r)
    requires idx < |r.added| && r.added[idx].key == d.key
    ensures Conserves(parent + [d], fix, Paired(r, d, idx))
  {
    SidesAppend(r.surviving, Survivor(d, r.added[idx].line));
    DropOne(r.added, idx);
  }

  lemma PairedSplits(parent: seq<Diag>, fix: seq<Diag>, r: FileReport, d: Diag, idx: nat)
    requires Split(Keys(parent), Keys(fix), r)
    requires idx < |r.added| && r.added[idx].key == d.key
    ensures Split(Keys(parent + [d]), Keys(fix), Paired(r, d, idx))
  {
    SidesAppend(r.surviving, Survivor(d, r.added[idx].line));
    DropOne(r.added, idx);
    KeysAppend(parent, d);
    KeysAppend(Before(r.surviving), d);
    PartsPaired(Keys(parent), Keys(fix), Keys(Before(r.surviving)), Keys(r.silenced), Keys(r.added), d.key,
                Keys(Drop(r.added, idx)));
  }

  lemma PairedNearest(r: FileReport, d: Diag, idx: nat)
    requires NearestFirst(r.surviving, r.added)
    requires idx < |r.added| && r.added[idx].key == d.key
    requires Least(r.added, d, idx)
    ensures NearestFirst(Paired(r, d, idx).surviving, Paired(r, d, idx).added)
  {
    var next, u, n := Paired(r, d, idx), r.added[idx], |r.surviving|;
    assert forall v :: v in next.added ==> v in r.added;
    forall i | 0 <= i <= n ensures Closest(next.surviving[i], next.added) {
      if i < n {
        assert Closest(r.surviving[i], r.added);
      } else {
        forall v | v in next.added && v.key == d.key ensures Gap(u.line, d.line) <= Gap(v.line, d.line) {
          var j :| 0 <= j < |r.added| && r.added[j] == v;
        }
      }
    }
    forall i, j | 0 <= i < j <= n ensures Closest(next.surviving[i], [After(next.surviving)[j]]) {
      if j == n {
        assert Closest(r.surviving[i], r.added) && u in r.added;
      } else {
        assert After(next.surviving)[j] == After(r.surviving)[j];
      }
    }
  }

  /** A report on `parent` and `fix`: nothing lost, keys split exactly, nearest pairs first, line order kept. */
  ghost predicate Reports(parent: seq<Diag>, fix: seq<Diag>, r: FileReport) {
    && Conserves(parent, fix, r) && Split(Keys(parent), Keys(fix), r) && NearestFirst(r.surviving, r.added)
    && (ByLine(parent) ==> ByLine(Before(r.surviving)) && ByLine(r.silenced))
  }

  lemma PairStep(parent: seq<Diag>, fix: seq<Diag>, r: FileReport, d: Diag, idx: nat)
    requires Reports(parent, fix, r)
    requires idx < |r.added| && r.added[idx].key == d.key
    requires Least(r.added, d, idx)
    ensures Reports(parent + [d], fix, Paired(r, d, idx))
  {
    PairedConserves(parent, fix, r, d, idx);
    PairedSplits(parent, fix, r, d, idx);
    PairedNearest(r, d, idx);
    if ByLine(parent + [d]) { LinesKept(parent, d, fix, r); }
    SidesAppend(r.surviving, Survivor(d, r.added[idx].line));
  }

  ghost predicate NoneLeft(unused: seq<Diag>, key: string) { forall u :: u in unused ==> u.key != key }

  lemma NoMatch(unused: seq<Diag>, d: Diag, idx: nat)
    requires idx < |unused| && Least(unused, d, idx) && unused[idx].key != d.key
    ensures NoneLeft(unused, d.key)
  {}

  lemma SilenceStep(parent: seq<Diag>, fix: seq<Diag>, r: FileReport, d: Diag)
    requires Reports(parent, fix, r) && NoneLeft(r.added, d.key)
    ensures Reports(parent + [d], fix, r.(silenced := r.silenced + [d]))
  {
    SilencedConserves(parent, fix, r, d);
    SilencedSplits(parent, fix, r, d);
    if ByLine(parent + [d]) { LinesKept(parent, d, fix, r); }
  }

  lemma NothingFiled(fix: seq<Diag>)
    ensures Reports([], fix, FileReport([], [], fix))
  {
    PartsOfNone(Keys(fix));
  }

  lemma PartsOfNone(f: multiset<string>)
    ensures Parts(multiset{}, f, multiset{}, multiset{}, f)
  {}

  /** One parent diagnostic: paired with the nearest unused one of its key, or silenced. */
  function File(r: FileReport, d: Diag): FileReport {
    var idx := Pick(r.added, d);
    if idx.Some? && r.added[idx.value].key == d.key then Paired(r, d, idx.value)
    else r.(silenced := r.silenced + [d])
  }

  function Filed(parent: seq<Diag>, fix: seq<Diag>): FileReport {
    if parent == [] then FileReport([], [], fix)
    else File(Filed(parent[..|parent| - 1], fix), parent[|parent| - 1])
  }

  lemma {:induction false} FiledReports(parent: seq<Diag>, fix: seq<Diag>)
    ensures Reports(parent, fix, Filed(parent, fix))
    decreases |parent|
  {
    if parent == [] {
      NothingFiled(fix);
    } else {
      var init, d := parent[..|parent| - 1], parent[|parent| - 1];
      assert parent == init + [d];
      assert Filed(parent, fix) == File(Filed(init, fix), d);
      assert Reports(parent, fix, File(Filed(init, fix), d)) by {
        FiledReports(init, fix);
        FileStep(init, fix, Filed(init, fix), d);
      }
    }
  }

  lemma FileStep(parent: seq<Diag>, fix: seq<Diag>, r: FileReport, d: Diag)
    requires Reports(parent, fix, r)
    ensures Reports(parent + [d], fix, File(r, d))
  {
    var idx := Pick(r.added, d);
    if idx.Some? { PickLeast(r.added, d); }
    if idx.Some? && r.added[idx.value].key == d.key {
      PairStep(parent, fix, r, d, idx.value);
    } else {
      if idx.Some? { NoMatch(r.added, d, idx.value); }
      SilenceStep(parent, fix, r, d);
    }
  }

  /** The pairing loop over one touched file. */
  method PairFile(parent: seq<Diag>, fix: seq<Diag>) returns (r: FileReport)
    ensures r == Filed(parent, fix)
  {
    var unused, surviving, silenced := fix, [], [];
    for i := 0 to |parent|
      invariant FileReport(surviving, silenced, unused) == Filed(parent[..i], fix)
    {
      var d := parent[i];
      assert parent[..i + 1][..i] == parent[..i];
      var idx := MinBy(unused, d);
      if idx.Some? && unused[idx.value].key == d.key {
        surviving := surviving + [Survivor(d, unused[idx.value].line)];
        unused := unused[..idx.value] + unused[idx.value + 1..];
      } else {
        silenced := silenced + [d];
      }
    }
    assert parent[..|parent|] == parent;
    r := FileReport(surviving, silenced, unused);
  }

  lemma SilencedConserves(parent: seq<Diag>, fix: seq<Diag>, r: FileReport, d: Diag)
    requires Conserves(parent, fix, r)
    ensures Conserves(parent + [d], fix, r.(silenced := r.silenced + [d]))
  {}

  lemma SilencedSplits(parent: seq<Diag>, fix: seq<Diag>, r: FileReport, d: Diag)
    requires Split(Keys(parent), Keys(fix), r)
    requires NoneLeft(r.added, d.key)
    ensures Split(Keys(parent + [d]), Keys(fix), r.(silenced := r.silenced + [d]))
  {
    KeysMeaning(r.added, d.key);
    KeysAppend(parent, d);
    KeysAppend(r.silenced, d);
    PartsSilenced(Keys(parent), Keys(fix), Keys(Before(r.surviving)), Keys(r.silenced), Keys(r.added), d.key);
  }

  /** Whatever was filed so far lies no later than the next line of a sorted list. */
  lemma LinesKept(parent: seq<Diag>, d: Diag, fix: seq<Diag>, r: FileReport)
    requires Conserves(parent, fix, r) && ByLine(parent + [d])
    requires ByLine(parent) ==> ByLine(Before(r.surviving)) && ByLine(r.silenced)
    ensures ByLine(Before(r.surviving) + [d]) && ByLine(r.silenced + [d])
    ensures ByLine(Before(r.surviving)) && ByLine(r.silenced)
  {
    assert forall i :: 0 <= i < |parent| ==> (parent + [d])[i] == parent[i];
    forall u | u in Before(r.surviving) || u in r.silenced ensures u.line <= d.line {
      assert u in multiset(Before(r.surviving)) + multiset(r.silenced);
      assert u in parent;
      assert (parent + [d])[|parent|] == d;
    }
  }

  // ----- the whole record -----

  datatype Counts = Counts(silenced: nat, surviving: nat, added: nat)

  datatype Label = NOISE | HIT | UNRELATED | MISS

  /** A file's diagnostics; a file never mentioned has none. */
  function At(diags: map<string, seq<Diag>>, path: string): seq<Diag> { if path in diags then diags[path] else [] }

  /** Some key occurs more often in `a` than in `b`. */
  ghost predicate Exceeds(a: seq<Diag>, b: seq<Diag>) { exists key :: KeyCount(a, key) > KeyCount(b, key) }

  ghost predicate Meets(a: seq<Diag>, b: seq<Diag>) {
    exists key :: KeyCount(a, key) > 0 && KeyCount(b, key) > 0
  }

  /** Some touched file exceeds its counterpart. */
  ghost predicate Surplus(touched: seq<string>, a: map<string, seq<Diag>>, b: map<string, seq<Diag>>) {
    exists i :: 0 <= i < |touched| && Exceeds(At(a, touched[i]), At(b, touched[i]))
  }

  ghost predicate Common(touched: seq<string>, a: map<string, seq<Diag>>, b: map<string, seq<Diag>>) {
    exists i :: 0 <= i < |touched| && Meets(At(a, touched[i]), At(b, touched[i]))
  }

  /** One file's counts as multiset sizes: no lines, no pairing. */
  ghost function Sizes(p: multiset<string>, f: multiset<string>): Counts { Counts(|p - f|, |p * f|, |f - p|) }

  ghost function SizesOf(touched: seq<string>, parent: map<string, seq<Diag>>, fix: map<string, seq<Diag>>)
    : (r: seq<Counts>)
    ensures |r| == |touched|
    ensures forall i :: 0 <= i < |r| ==> r[i] == Sizes(Keys(At(parent, touched[i])), Keys(At(fix, touched[i])))
  {
    seq(|touched|, i requires 0 <= i < |touched| => Sizes(Keys(At(parent, touched[i])), Keys(At(fix, touched[i]))))
  }

  function Sum(parts: seq<Counts>): Counts {
    if parts == [] then Counts(0, 0, 0)
    else
      var c, last := Sum(parts[..|parts| - 1]), parts[|parts| - 1];
      Counts(c.silenced + last.silenced, c.surviving + last.surviving, c.added + last.added)
  }

  /** `files_out`, `counts` and the label. */
  method Judge(touched: seq<string>, parent: map<string, seq<Diag>>, fix: map<string, seq<Diag>>)
    returns (reports: seq<FileReport>, counts: Counts, verdict: Label)
    ensures |reports| == |touched|
    ensures forall i :: 0 <= i < |touched| ==> reports[i] == Filed(At(parent, touched[i]), At(fix, touched[i]))
    ensures counts == Sum(SizesOf(touched, parent, fix))
    ensures verdict == NOISE <==> Surplus(touched, fix, parent)
    ensures verdict == HIT <==> !Surplus(touched, fix, parent) && Surplus(touched, parent, fix)
    ensures verdict == UNRELATED <==>
            !Surplus(touched, fix, parent) && !Surplus(touched, parent, fix) && Common(touched, parent, fix)
  {
    reports := [];
    for i := 0 to |touched|
      invariant |reports| == i
      invariant forall j :: 0 <= j < i ==> reports[j] == Filed(At(parent, touched[j]), At(fix, touched[j]))
    {
      var r := PairFile(At(parent, touched[i]), At(fix, touched[i]));
      reports := reports + [r];
    }
    ghost var sizes := SizesOf(touched, parent, fix);
    forall i | 0 <= i < |touched| ensures Sized(reports[i], sizes[i]) {
      FiledSizes(At(parent, touched[i]), At(fix, touched[i]));
    }
    counts := Total(reports, sizes);
    verdict := if counts.added > 0 then NOISE
             else if counts.silenced > 0 then HIT
             else if counts.surviving > 0 then UNRELATED
             else MISS;
    LabelMeaning(touched, parent, fix);
  }

  ghost predicate Sized(r: FileReport, size: Counts) {
    size == Counts(|r.silenced|, |r.surviving|, |r.added|)
  }

  method Total(reports: seq<FileReport>, ghost sizes: seq<Counts>) returns (counts: Counts)
    requires |sizes| == |reports| && forall i :: 0 <= i < |reports| ==> Sized(reports[i], sizes[i])
    ensures counts == Sum(sizes)
  {
    counts := Counts(0, 0, 0);
    for i := 0 to |reports|
      invariant counts == Sum(sizes[..i])
    {
      var r := reports[i];
      assert Sized(r, sizes[i]) && sizes[..i + 1][..i] == sizes[..i];
      counts := Counts(counts.silenced + |r.silenced|, counts.surviving + |r.surviving|, counts.added + |r.added|);
    }
    assert sizes[..|sizes|] == sizes;
  }

  lemma FiledSizes(parent: seq<Diag>, fix: seq<Diag>)
    ensures Sized(Filed(parent, fix), Sizes(Keys(parent), Keys(fix)))
  {
    var r := Filed(parent, fix);
    FiledReports(parent, fix);
    assert |Keys(r.silenced)| == |r.silenced| && |Keys(r.added)| == |r.added|;
    assert |Keys(Before(r.surviving))| == |r.surviving|;
  }

  lemma ExceedsIff(a: seq<Diag>, b: seq<Diag>)
    ensures Exceeds(a, b) <==> |Keys(a) - Keys(b)| > 0
  {
    var left := Keys(a) - Keys(b);
    if |left| > 0 {
      var key :| key in left;
      assert KeyCount(a, key) > KeyCount(b, key);
    }
    if Exceeds(a, b) {
      var key :| KeyCount(a, key) > KeyCount(b, key);
      assert key in left;
    }
  }

  lemma MeetsIff(a: seq<Diag>, b: seq<Diag>)
    ensures Meets(a, b) <==> |Keys(a) * Keys(b)| > 0
  {
    var both := Keys(a) * Keys(b);
    if |both| > 0 {
      var key :| key in both;
      assert KeyCount(a, key) > 0 && KeyCount(b, key) > 0;
    }
    if Meets(a, b) {
      var key :| KeyCount(a, key) > 0 && KeyCount(b, key) > 0;
      assert key in both;
    }
  }

  lemma {:induction false} SumPositive(parts: seq<Counts>)
    ensures Sum(parts).added > 0 <==> exists i :: 0 <= i < |parts| && parts[i].added > 0
    ensures Sum(parts).silenced > 0 <==> exists i :: 0 <= i < |parts| && parts[i].silenced > 0
    ensures Sum(parts).surviving > 0 <==> exists i :: 0 <= i < |parts| && parts[i].surviving > 0
    decreases |parts|
  {
    if parts != [] {
      SumPositive(parts[..|parts| - 1]);
    }
  }

  lemma LabelMeaning(touched: seq<string>, parent: map<string, seq<Diag>>, fix: map<string, seq<Diag>>)
    ensures var c := Sum(SizesOf(touched, parent, fix));
            && (c.added > 0 <==> Surplus(touched, fix, parent))
            && (c.silenced > 0 <==> Surplus(touched, parent, fix))
            && (c.surviving > 0 <==> Common(touched, parent, fix))
  {
    var sizes := SizesOf(touched, parent, fix);
    SumPositive(sizes);
    forall i | 0 <= i < |touched|
      ensures sizes[i].added > 0 <==> Exceeds(At(fix, touched[i]), At(parent, touched[i]))
      ensures sizes[i].silenced > 0 <==> Exceeds(At(parent, touched[i]), At(fix, touched[i]))
      ensures sizes[i].surviving > 0 <==> Meets(At(parent, touched[i]), At(fix, touched[i]))
    {
      SizesMeaning(At(parent, touched[i]), At(fix, touched[i]));
    }
  }

  lemma SizesMeaning(parent: seq<Diag>, fix: seq<Diag>)
    ensures var c := Sizes(Keys(parent), Keys(fix));
            && (c.added > 0 <==> Exceeds(fix, parent))
            && (c.silenced > 0 <==> Exceeds(parent, fix))
            && (c.surviving > 0 <==> Meets(parent, fix))
  {
    ExceedsIff(fix, parent);
    ExceedsIff(parent, fix);
    MeetsIff(parent, fix);
  }

  /** Moving diagnostics to other lines or reordering them changes no count and no label. */
  lemma VerdictByKeys(touched: seq<string>, parent: map<string, seq<Diag>>, fix: map<string, seq<Diag>>,
                      parent': map<string, seq<Diag>>, fix': map<string, seq<Diag>>)
    requires forall i :: 0 <= i < |touched| ==> Keys(At(parent, touched[i])) == Keys(At(parent', touched[i]))
    requires forall i :: 0 <= i < |touched| ==> Keys(At(fix, touched[i])) == Keys(At(fix', touched[i]))
    ensures Sum(SizesOf(touched, parent, fix)) == Sum(SizesOf(touched, parent', fix'))
  {
    assert SizesOf(touched, parent, fix) == SizesOf(touched, parent', fix');
  }
}
