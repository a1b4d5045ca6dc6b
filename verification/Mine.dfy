/** The bug miner: folding identical-hunk twins into one record, and the one-change-point split of a line pair. */
module Mine {
  import opened Types

  // ----- twin commits -----

  datatype Commit = Commit(sha: string, subject: string, key: string, also: seq<string>)

  predicate WordChar(c: char) { 'a' <= c <= 'z' || 'A' <= c <= 'Z' || '0' <= c <= '9' || c == '_' }

  /** `phrase` at the front, ending at a word boundary. */
  predicate Leads(phrase: string, subject: string) {
    phrase <= subject && (|phrase| == |subject| || !WordChar(subject[|phrase|]))
  }

  /** MERGE_SUBJECT_RE */
  predicate Merge(subject: string) {
    || Leads("Merge pull request", subject)
    || Leads("Merge branch", subject)
    || Leads("Merge remote-tracking branch", subject)
  }

  /** `Array#uniq`: the first of each value, in order. */
  function Uniq(s: seq<string>): (r: seq<string>)
    ensures forall x :: x in r <==> x in s
    ensures forall i, j :: 0 <= i < j < |r| ==> r[i] != r[j]
  {
    if s == [] then []
    else
      var init := Uniq(s[..|s| - 1]);
      if s[|s| - 1] in init then init else init + [s[|s| - 1]]
  }

  /** The record kept for `key` is number `j`: the first that is no merge, or the first of all when every one is. */
  ghost predicate Chosen(records: seq<Commit>, key: string, j: nat) {
    && j < |records| && records[j].key == key
    && (forall m :: 0 <= m < j && records[m].key == key ==> Merge(records[m].subject) && !Merge(records[j].subject))
    && (Merge(records[j].subject) ==>
          forall m :: 0 <= m < |records| && records[m].key == key ==> Merge(records[m].subject))
  }

  ghost function Shas(records: seq<Commit>, key: string): set<string> {
    set c | c in records && c.key == key :: c.sha
  }

  ghost predicate NoRepeat(s: seq<string>) { forall i, j :: 0 <= i < j < |s| ==> s[i] != s[j] }

  /** `kept` stands for every record of its key. */
  ghost predicate Folded(records: seq<Commit>, kept: Commit) {
    && (exists j: nat :: Chosen(records, kept.key, j)
          && kept.sha == records[j].sha && kept.subject == records[j].subject)
    && (set x | x in kept.also) + {kept.sha} == Shas(records, kept.key)
    && NoRepeat(kept.also)
  }

  /** The table after `records`: one folded record for each key seen. */
  ghost predicate Table(records: seq<Commit>, byKey: map<string, Commit>) {
    && (forall key :: key in byKey <==> exists i :: 0 <= i < |records| && records[i].key == key)
    && forall key :: key in byKey ==> byKey[key].key == key && Folded(records, byKey[key])
  }

  function FirstAt(records: seq<Commit>, key: string): (i: nat)
    ensures i <= |records|
    ensures forall j :: 0 <= j < i ==> records[j].key != key
    ensures i < |records| ==> records[i].key == key
  {
    if records == [] || records[0].key == key then 0 else 1 + FirstAt(records[1..], key)
  }

  // ----- one record -----

  lemma ShasAppend(records: seq<Commit>, r: Commit, key: string)
    ensures Shas(records + [r], key) == Shas(records, key) + if r.key == key then {r.sha} else {}
  {
    assert forall c :: c in records + [r] <==> c in records || c == r;
  }

  lemma ChosenKeeps(records: seq<Commit>, r: Commit, key: string, j: nat)
    requires Chosen(records, key, j) && (r.key != key || Merge(r.subject) || !Merge(records[j].subject))
    ensures Chosen(records + [r], key, j)
  {
    assert forall m :: 0 <= m < |records| ==> (records + [r])[m] == records[m];
  }

  lemma ChosenAnew(records: seq<Commit>, r: Commit, j: nat)
    requires Chosen(records, r.key, j) && Merge(records[j].subject) && !Merge(r.subject)
    ensures Chosen(records + [r], r.key, |records|)
  {
    assert forall m :: 0 <= m < |records| ==> (records + [r])[m] == records[m];
  }

  lemma AlsoGrows(also: seq<string>, sha: string, longer: seq<string>)
    requires longer == also + [sha] || longer == [sha] + also
    ensures (set x | x in Uniq(longer)) == (set x | x in also) + {sha} && NoRepeat(Uniq(longer))
  {}

  /** A record of another key changes nothing. */
  lemma OtherKey(records: seq<Commit>, r: Commit, kept: Commit)
    requires Folded(records, kept) && r.key != kept.key
    ensures Folded(records + [r], kept)
  {
    ShasAppend(records, r, kept.key);
    var j: nat :| Chosen(records, kept.key, j) && kept.sha == records[j].sha && kept.subject == records[j].subject;
    ChosenKeeps(records, r, kept.key, j);
    assert (records + [r])[j] == records[j];
  }

  lemma FirstOfKey(records: seq<Commit>, r: Commit)
    requires forall i :: 0 <= i < |records| ==> records[i].key != r.key
    requires r.also == []
    ensures Folded(records + [r], r)
  {
    ShasAppend(records, r, r.key);
    assert Shas(records, r.key) == {};
    assert Chosen(records + [r], r.key, |records|);
  }

  /** A non-merge takes over from a merge and lists everything the merge stood for. */
  lemma TakesOver(records: seq<Commit>, kept: Commit, r: Commit)
    requires Folded(records, kept) && r.key == kept.key && Merge(kept.subject) && !Merge(r.subject)
    ensures Folded(records + [r], r.(also := Uniq([kept.sha] + kept.also)))
  {
    ShasAppend(records, r, r.key);
    var j: nat :| Chosen(records, kept.key, j) && kept.sha == records[j].sha && kept.subject == records[j].subject;
    ChosenAnew(records, r, j);
    AlsoGrows(kept.also, kept.sha, [kept.sha] + kept.also);
    assert (records + [r])[|records|] == r;
  }

  lemma StaysKept(records: seq<Commit>, kept: Commit, r: Commit)
    requires Folded(records, kept) && r.key == kept.key && !(Merge(kept.subject) && !Merge(r.subject))
    ensures Folded(records + [r], kept.(also := Uniq(kept.also + [r.sha])))
  {
    ShasAppend(records, r, r.key);
    var j: nat :| Chosen(records, kept.key, j) && kept.sha == records[j].sha && kept.subject == records[j].subject;
    ChosenKeeps(records, r, kept.key, j);
    AlsoGrows(kept.also, r.sha, kept.also + [r.sha]);
    assert (records + [r])[j] == records[j];
  }

  /** Storing a folded record under the new record's key keeps the table. */
  lemma TableStep(records: seq<Commit>, r: Commit, byKey: map<string, Commit>, kept: Commit)
    requires Table(records, byKey) && kept.key == r.key && Folded(records + [r], kept)
    ensures Table(records + [r], byKey[r.key := kept])
  {
    var after, next := records + [r], byKey[r.key := kept];
    assert after[|records|] == r && forall i :: 0 <= i < |records| ==> after[i] == records[i];
    forall key | key in next && key != r.key ensures Folded(after, next[key]) {
      OtherKey(records, r, byKey[key]);
    }
  }

  // ----- the loop -----

  /** The table once `r` is in. */
  function Enter(byKey: map<string, Commit>, r: Commit): map<string, Commit> {
    if r.key !in byKey then byKey[r.key := r]
    else
      var kept := byKey[r.key];
      byKey[r.key :=
        if Merge(kept.subject) && !Merge(r.subject) then r.(also := Uniq([kept.sha] + kept.also))
        else kept.(also := Uniq(kept.also + [r.sha]))]
  }

  lemma EnterKeepsTable(records: seq<Commit>, byKey: map<string, Commit>, r: Commit)
    requires Table(records, byKey) && r.also == []
    ensures Table(records + [r], Enter(byKey, r))
  {
    if r.key !in byKey {
      FirstOfKey(records, r);
    } else {
      var kept := byKey[r.key];
      if Merge(kept.subject) && !Merge(r.subject) {
        TakesOver(records, kept, r);
      } else {
        StaysKept(records, kept, r);
      }
    }
    TableStep(records, r, byKey, Enter(byKey, r)[r.key]);
  }

  /** Keys stand in the order of their first record, all before record `n`. */
  ghost predicate InOrder(records: seq<Commit>, order: seq<string>, n: nat) {
    && (forall i, j :: 0 <= i < j < |order| ==> FirstAt(records, order[i]) < FirstAt(records, order[j]))
    && forall i :: 0 <= i < |order| ==> FirstAt(records, order[i]) < n
  }

  lemma PushKey(records: seq<Commit>, order: seq<string>, n: nat, byKey: map<string, Commit>)
    requires n < |records| && InOrder(records, order, n)
    requires Table(records[..n], byKey) && records[n].key !in byKey
    ensures InOrder(records, order + [records[n].key], n + 1)
  {
    forall i | 0 <= i < n ensures records[i].key != records[n].key {
      assert records[..n][i].key in byKey;
    }
    FirstHere(records, n);
  }

  /** The records that survive: one for each key, in order of first appearance, each standing for its whole group. */
  method Dedupe(records: seq<Commit>) returns (kept: seq<Commit>)
    requires forall i :: 0 <= i < |records| ==> records[i].also == []
    ensures forall i :: 0 <= i < |kept| ==> Folded(records, kept[i])
    ensures forall c :: c in records ==> Survives(c.key, kept)
    ensures forall i, j :: 0 <= i < j < |kept| ==> FirstAt(records, kept[i].key) < FirstAt(records, kept[j].key)
  {
    var byKey, order := Collect(records);
    kept := Values(byKey, order);
    forall i | 0 <= i < |kept| ensures Folded(records, kept[i]) {
      StoredIsFolded(records, byKey, order[i]);
    }
    forall c | c in records ensures Survives(c.key, kept) {
      EveryKeyListed(records, byKey, order, c, kept);
    }
    forall i, j | 0 <= i < j < |kept| ensures FirstAt(records, kept[i].key) < FirstAt(records, kept[j].key) {
      StoredIsFolded(records, byKey, order[i]);
      StoredIsFolded(records, byKey, order[j]);
    }
  }

  ghost predicate Survives(key: string, kept: seq<Commit>) { exists i :: 0 <= i < |kept| && kept[i].key == key }

  lemma StoredIsFolded(records: seq<Commit>, byKey: map<string, Commit>, key: string)
    requires Table(records, byKey) && key in byKey
    ensures Folded(records, byKey[key]) && byKey[key].key == key
  {}

  lemma EveryKeyListed(records: seq<Commit>, byKey: map<string, Commit>, order: seq<string>, c: Commit,
                       kept: seq<Commit>)
    requires Table(records, byKey) && (forall key :: key in order <==> key in byKey) && c in records
    requires kept == Values(byKey, order)
    ensures Survives(c.key, kept)
  {
    assert c.key in order;
    var i :| 0 <= i < |order| && order[i] == c.key;
    assert kept[i].key == c.key;
  }

  method Collect(records: seq<Commit>) returns (byKey: map<string, Commit>, order: seq<string>)
    requires forall i :: 0 <= i < |records| ==> records[i].also == []
    ensures Table(records, byKey) && InOrder(records, order, |records|)
    ensures forall key :: key in order <==> key in byKey
  {
    byKey, order := map[], [];
    for n := 0 to |records|
      invariant Table(records[..n], byKey) && InOrder(records, order, n)
      invariant forall key :: key in order <==> key in byKey
    {
      var r := records[n];
      ghost var was := byKey;
      assert records[..n + 1] == records[..n] + [r];
      EnterKeepsTable(records[..n], byKey, r);
      if r.key !in byKey {
        PushKey(records, order, n, byKey);
        byKey, order := byKey[r.key := r], order + [r.key];
      } else {
        var earlier := byKey[r.key];
        if Merge(earlier.subject) && !Merge(r.subject) {
          byKey := byKey[r.key := r.(also := Uniq([earlier.sha] + earlier.also))];
        } else {
          byKey := byKey[r.key := earlier.(also := Uniq(earlier.also + [r.sha]))];
        }
      }
      assert byKey == Enter(was, r);
    }
    assert records[..|records|] == records;
  }

  lemma FirstHere(records: seq<Commit>, n: nat)
    requires n < |records| && forall i :: 0 <= i < n ==> records[i].key != records[n].key
    ensures FirstAt(records, records[n].key) == n
  {}

  /** `Hash#values`, in insertion order. */
  function Values(byKey: map<string, Commit>, order: seq<string>): (r: seq<Commit>)
    requires forall key :: key in order ==> key in byKey
    ensures |r| == |order| && forall i :: 0 <= i < |r| ==> r[i] == byKey[order[i]]
  {
    seq(|order|, i requires 0 <= i < |order| => byKey[order[i]])
  }

  // ----- one change point -----

  function FromEnd(a: string, i: nat): char
    requires i < |a|
  {
    a[|a| - 1 - i]
  }

  /** `a` and `b` agree on `p` leading and `s` trailing characters that do not overlap. */
  ghost predicate Split(a: string, b: string, p: nat, s: nat) {
    && p + s <= |a| && p + s <= |b|
    && (forall i :: 0 <= i < p ==> a[i] == b[i])
    && forall i :: 0 <= i < s ==> FromEnd(a, i) == FromEnd(b, i)
  }

  function Least(x: nat, y: nat): nat { if x < y then x else y }

  /** The split of a removed and an added line: no other split leaves less in the middle. */
  method ChangePoint(a: string, b: string) returns (p: nat, s: nat)
    ensures Split(a, b, p, s)
    ensures forall p': nat, s': nat :: Split(a, b, p', s') ==> p' <= p && p' + s' <= p + s
    ensures a != b ==> a[p..|a| - s] != b[p..|b| - s]
  {
    var min := Least(|a|, |b|);
    p := 0;
    while p < min && a[p] == b[p]
      invariant p <= min && forall i :: 0 <= i < p ==> a[i] == b[i]
    {
      p := p + 1;
    }
    s := 0;
    while s < min - p && FromEnd(a, s) == FromEnd(b, s)
      invariant s <= min - p && forall i :: 0 <= i < s ==> FromEnd(a, i) == FromEnd(b, i)
    {
      s := s + 1;
    }
    forall p': nat, s': nat | Split(a, b, p', s') ensures p' <= p && p' + s' <= p + s {
      LeastMiddle(a, b, p, s, p', s');
    }
    MiddlesDiffer(a, b, p, s);
  }

  lemma LeastMiddle(a: string, b: string, p: nat, s: nat, p': nat, s': nat)
    requires Split(a, b, p, s) && Split(a, b, p', s')
    requires p < Least(|a|, |b|) ==> a[p] != b[p]
    requires s < Least(|a|, |b|) - p ==> FromEnd(a, s) != FromEnd(b, s)
    ensures p' <= p && p' + s' <= p + s
  {
    if s < Least(|a|, |b|) - p { assert s' <= s; }
  }

  /** Distinct lines always differ in the middle, so the guard for equal middles never fires. */
  lemma MiddlesDiffer(a: string, b: string, p: nat, s: nat)
    requires Split(a, b, p, s)
    ensures a != b ==> a[p..|a| - s] != b[p..|b| - s]
  {
    if a[p..|a| - s] == b[p..|b| - s] {
      assert |a| == |b|;
      forall i | 0 <= i < |a| ensures a[i] == b[i] {
        if p <= i < |a| - s {
          assert a[p..|a| - s][i - p] == b[p..|b| - s][i - p];
        } else if i >= p {
          assert FromEnd(a, |a| - 1 - i) == FromEnd(b, |a| - 1 - i);
        }
      }
    }
  }
}
