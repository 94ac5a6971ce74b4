/** The benchmark's cross-check of the real-time core's counters. Every message bumps MSGS and one of
    D1..D4, by how it was discovered, after its handler has run; a STATS message reads one counter in its
    handler, so it never sees itself. A snapshot reads counters 5..19, then D1..D4, then MSGS.
    Main results: MSGS = D1 + D2 + D3 + D4 between messages (Serve); the messages counted between two
    snapshots are the rounds made, always, and the four path counters add up to them exactly when the
    rounds that read the path counters met the same correction both times (Measure, PathsDecide). */
module Reconcile {
  import opened Basics

  const STAT_COUNT: nat := 20

  type Tag = k: int | 1 <= k <= 4 witness 1

  /** How many messages were discovered by path k. */
  function Count(tags: seq<Tag>, k: Tag): nat {
    if tags == [] then 0
    else Count(tags[..|tags| - 1], k) + if tags[|tags| - 1] == k then 1 else 0
  }

  function Total(tags: seq<Tag>): nat {
    Count(tags, 1) + Count(tags, 2) + Count(tags, 3) + Count(tags, 4)
  }

  /** Every message was discovered by one path. */
  lemma {:induction false} TotalIsLength(tags: seq<Tag>)
    ensures Total(tags) == |tags|
  {
    if tags != [] {
      TotalIsLength(tags[..|tags| - 1]);
    }
  }

  lemma CountOneMore(tags: seq<Tag>, t: Tag, k: Tag)
    ensures Count(tags + [t], k) == Count(tags, k) + if t == k then 1 else 0
  {
    assert (tags + [t])[..|tags|] == tags;
  }

  // ---- the two sides ----

  class Counters {
    var msgs: nat
    const d: array<nat>      // D1..D4 in d[1..5]
    ghost var tags: seq<Tag> // of every message so far

    ghost predicate Valid()
      reads this, d
    {
      d.Length == 5 && msgs == |tags| && forall k: Tag :: d[k] == Count(tags, k)
    }

    constructor ()
      ensures Valid() && fresh(d) && tags == []
    {
      d := new nat[5](_ => 0);
      msgs, tags := 0, [];
    }

    function Get(idx: nat, other: nat): nat
      requires d.Length == 5
      reads this, d
    {
      if idx == 0 then msgs else if idx <= 4 then d[idx] else other
    }

    /** A STATS message: the handler reads, then the step counts the message. */
    method Serve(idx: nat, other: nat, tag: Tag) returns (v: nat)
      requires Valid()
      modifies this, d
      ensures Valid() && v == old(Get(idx, other)) && tags == old(tags) + [tag]
      ensures msgs == d[1] + d[2] + d[3] + d[4]
    {
      v := Get(idx, other);
      forall k: Tag ensures Count(tags + [tag], k) == Count(tags, k) + if tag == k then 1 else 0 {
        CountOneMore(tags, tag, k);
      }
      TotalIsLength(tags + [tag]);
      msgs := msgs + 1;
      d[tag] := d[tag] + 1;
      tags := tags + [tag];
    }
  }

  datatype Snap = Snap(c: seq<nat>, mark: nat)

  /** c was read by twenty messages, the last of them just before `tags` ended. */
  ghost predicate SnapOf(c: seq<nat>, tags: seq<Tag>) {
    && |c| == STAT_COUNT && |tags| >= STAT_COUNT
    && c[0] == |tags| - 1
    && forall k: Tag :: c[k] == Count(tags[..|tags| - 6 + k], k)
  }

  class Bench {
    const rp: Counters
    var rounds: nat
    ghost var before: nat // messages before this bench

    ghost predicate Valid()
      reads this, rp, rp.d
    {
      rp.Valid() && rp.msgs == before + rounds
    }

    constructor (rp: Counters)
      requires rp.Valid()
      ensures Valid() && this.rp == rp
    {
      this.rp := rp;
      rounds, before := 0, rp.msgs;
    }

    /** A round completes: one message, one response. */
    method StatRound(idx: nat, other: nat, tag: Tag) returns (v: nat)
      requires Valid()
      modifies this`rounds, rp, rp.d
      ensures Valid() && before == old(before) && rounds == old(rounds) + 1
      ensures v == old(rp.Get(idx, other)) && rp.tags == old(rp.tags) + [tag]
    {
      v := rp.Serve(idx, other, tag);
      rounds := rounds + 1;
    }

    /** How the core discovers the twenty messages, and what it answers for 5..19, are inputs. */
    method Snapshot(tags: seq<Tag>, others: seq<nat>) returns (s: Snap)
      requires Valid() && |tags| == STAT_COUNT && |others| == STAT_COUNT
      modifies this`rounds, rp, rp.d
      ensures Valid() && before == old(before)
      ensures rp.tags == old(rp.tags) + tags && SnapOf(s.c, rp.tags) && s.mark == rounds == old(rounds) + STAT_COUNT
    {
      ghost var all := rp.tags + tags;
      ghost var start := |rp.tags|;
      var c := new nat[STAT_COUNT](_ => 0);
      var n := 0;
      for i := 5 to STAT_COUNT
        invariant Valid() && before == old(before) && n == i - 5 && rounds == old(rounds) + n
        invariant rp.tags == all[..start + n]
      {
        c[i] := StatRound(i, others[i], tags[n]);
        n := n + 1;
      }
      for i := 1 to 5
        invariant Valid() && before == old(before) && n == 14 + i && rounds == old(rounds) + n
        invariant rp.tags == all[..start + n]
        invariant forall k: Tag :: k < i ==> c[k] == Count(all[..start + 14 + k], k)
      {
        c[i] := StatRound(i, 0, tags[n]);
        n := n + 1;
      }
      c[0] := StatRound(0, 0, tags[n]);
      assert rp.tags == all;
      s := Snap(c[..], rounds);
      assert forall k: Tag :: s.c[k] == c[k];
    }
  }

  // ---- the cross-check ----

  function Sub(a: nat, b: nat): nat {
    if a > b then a - b else 0
  }

  /** The six cases in which a path counter already shows a message that read an earlier one. */
  function Correction(tags: seq<Tag>): nat
    requires |tags| >= STAT_COUNT
  {
    var a, b, c := tags[|tags| - 5], tags[|tags| - 4], tags[|tags| - 3];
    (if a == 1 then 0 else 1) + (if b >= 3 then 1 else 0) + (if c == 4 then 1 else 0)
  }

  lemma CountStep(tags: seq<Tag>, n: nat, k: Tag)
    requires n < |tags|
    ensures Count(tags[..n + 1], k) == Count(tags[..n], k) + if tags[n] == k then 1 else 0
  {
    assert tags[..n + 1][..n] == tags[..n];
  }

  /** What a snapshot's path counters add up to. */
  lemma SnapTotal(c: seq<nat>, tags: seq<Tag>)
    requires SnapOf(c, tags)
    ensures c[1] + c[2] + c[3] + c[4] + 4 == c[0] + Correction(tags)
  {
    var n := |tags| - 5;
    TotalIsLength(tags[..n]);
    assert c[1] == Count(tags[..n], 1) && c[2] == Count(tags[..n + 1], 2);
    assert c[3] == Count(tags[..n + 2], 3) && c[4] == Count(tags[..n + 3], 4);
    CountStep(tags, n, 2);
    CountStep(tags, n, 3);
    CountStep(tags, n + 1, 3);
    CountStep(tags, n, 4);
    CountStep(tags, n + 1, 4);
    CountStep(tags, n + 2, 4);
  }

  lemma {:induction false} CountGrows(a: seq<Tag>, b: seq<Tag>, k: Tag)
    requires a <= b
    ensures Count(a, k) <= Count(b, k)
    decreases |b|
  {
    if |a| < |b| {
      CountGrows(a, b[..|b| - 1], k);
    } else {
      assert a == b;
    }
  }

  lemma SnapGrows(c: seq<nat>, tags: seq<Tag>, c': seq<nat>, tags': seq<Tag>, k: Tag)
    requires SnapOf(c, tags) && SnapOf(c', tags') && tags <= tags'
    ensures c[k] <= c'[k]
  {
    var n, n' := |tags| - 6 + k, |tags'| - 6 + k;
    assert tags[..n] == tags'[..n'][..n];
    CountGrows(tags[..n], tags'[..n'], k);
  }

  function PathDelta(c: seq<nat>, c': seq<nat>): nat
    requires |c| == STAT_COUNT && |c'| == STAT_COUNT
  {
    Sub(c'[1], c[1]) + Sub(c'[2], c[2]) + Sub(c'[3], c[3]) + Sub(c'[4], c[4])
  }

  /** The path counters add up to the messages counted exactly when both snapshots met the same
      correction; in particular when the three messages that read D1, D2 and D3 were discovered by the
      same paths both times. */
  lemma PathsDecide(c: seq<nat>, tags: seq<Tag>, c': seq<nat>, tags': seq<Tag>)
    requires SnapOf(c, tags) && SnapOf(c', tags') && tags <= tags'
    ensures PathDelta(c, c') == Sub(c'[0], c[0]) <==> Correction(tags) == Correction(tags')
    ensures tags[|tags| - 5..|tags| - 2] == tags'[|tags'| - 5..|tags'| - 2] ==> PathDelta(c, c') == Sub(c'[0], c[0])
  {
    SnapTotal(c, tags);
    SnapTotal(c', tags');
    forall k: Tag ensures c[k] <= c'[k] {
      SnapGrows(c, tags, c', tags', k);
    }
    assert c[1] <= c'[1] && c[2] <= c'[2] && c[3] <= c'[3] && c[4] <= c'[4];
    var a, b := tags[|tags| - 5..|tags| - 2], tags'[|tags'| - 5..|tags'| - 2];
    assert a[0] == tags[|tags| - 5] && a[1] == tags[|tags| - 4] && a[2] == tags[|tags| - 3];
    assert b[0] == tags'[|tags'| - 5] && b[1] == tags'[|tags'| - 4] && b[2] == tags'[|tags'| - 3];
  }

  /** The benchmark's documentation has them always add up; here they do not: a message that read D1
      was discovered by spinning in one snapshot and by interrupt in the other. */
  lemma PathsMissed(c: seq<nat>, tags: seq<Tag>, c': seq<nat>, tags': seq<Tag>)
    requires tags == seq(STAT_COUNT, _ => 1) && tags' == tags + seq(15, _ => 1) + [2] + seq(4, _ => 1)
    requires SnapOf(c, tags) && SnapOf(c', tags')
    ensures PathDelta(c, c') != Sub(c'[0], c[0])
  {
    assert tags'[|tags'| - 5] == 2 && tags'[|tags'| - 4] == 1 && tags'[|tags'| - 3] == 1;
    PathsDecide(c, tags, c', tags');
  }

  /** Sum of the four path deltas, as summarize adds them up. */
  method PathSum(c: seq<nat>, c': seq<nat>) returns (sum: nat)
    requires |c| == STAT_COUNT && |c'| == STAT_COUNT
    ensures sum == PathDelta(c, c')
  {
    sum := 0;
    for k := 1 to 5
      invariant sum == (if k > 1 then Sub(c'[1], c[1]) else 0) + (if k > 2 then Sub(c'[2], c[2]) else 0)
                     + (if k > 3 then Sub(c'[3], c[3]) else 0) + (if k > 4 then Sub(c'[4], c[4]) else 0)
    {
      sum := sum + Sub(c'[k], c[k]);
    }
  }

  /** A measurement: snapshot, rounds, snapshot, and the two comparisons of summarize. first, during and
      last say how the core discovers the messages. */
  method Measure(b: Bench, first: seq<Tag>, during: seq<Tag>, last: seq<Tag>, others: seq<nat>)
    returns (roundsAgree: bool, pathsAgree: bool)
    requires b.Valid() && |first| == STAT_COUNT && |last| == STAT_COUNT && |others| == STAT_COUNT
    modifies b`rounds, b.rp, b.rp.d
    ensures b.Valid() && b.rp.tags == old(b.rp.tags) + first + during + last
    ensures roundsAgree
    ensures pathsAgree <==> Correction(first) == Correction(last)
  {
    var before := b.Snapshot(first, others);
    ghost var tags := b.rp.tags;
    for n := 0 to |during|
      invariant b.Valid() && b.before == old(b.before) && b.rounds == before.mark + n
      invariant b.rp.tags == tags + during[..n]
    {
      var v := b.StatRound(STAT_COUNT, 0, during[n]);
    }
    assert during[..|during|] == during;
    var after := b.Snapshot(last, others);
    PathsDecide(before.c, tags, after.c, b.rp.tags);
    var sum := PathSum(before.c, after.c);
    roundsAgree := before.c[0] <= after.c[0] && after.c[0] - before.c[0] == after.mark - before.mark;
    pathsAgree := sum == Sub(after.c[0], before.c[0]);
  }
}
