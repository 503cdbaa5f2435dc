/** The recording timeline in numbers: core-driver/cam_driver/pipeline.py, _pts_for. */
module PtsTimeline {
  import opened Common
  import opened Pts

  /** One PTS after another: as far apart as the stamps if these go forward by at most a minute, else one frame. */
  predicate Spaced(interval: int, a: Entry, b: Entry) {
    var d := b.key.ts - a.key.ts;
    b.pts - a.pts == if 0 < d <= 60_000_000_000 then d else interval
  }

  lemma {:induction false} IdealSpaced(interval: int, es: seq<Entry>)
    requires Ideal(interval, es)
    ensures es != [] ==> es[0].pts == 0
    ensures forall i :: 0 < i < |es| ==> Spaced(interval, es[i - 1], es[i])
    decreases |es|
  {
    if |es| >= 2 {
      var n := |es| - 1;
      IdealSpaced(interval, es[..n]);
      IdealPrefix(interval, es);
      forall i | 0 < i < |es| ensures Spaced(interval, es[i - 1], es[i]) {
        if i < n { assert es[..n][i] == es[i] && es[..n][i - 1] == es[i - 1]; }
      }
    }
  }

  lemma {:induction false} IdealPrefix(interval: int, es: seq<Entry>)
    requires |es| >= 2 && Ideal(interval, es)
    ensures Spaced(interval, es[|es| - 2], es[|es| - 1])
  {
    var p := es[..|es| - 1];
    assert p[|p| - 1] == es[|es| - 2];
    assert Ideal(interval, p);
  }

  /**
   * Over every run, the first recorded frame is at zero, and each one after it is as far from the one
   * before as the camera's stamps are, however far the timeline has been moved by then; only a stamp that
   * does not go forward, or goes more than a minute forward, counts as one frame interval instead.
   */
  lemma {:induction false} RecordedSpacing(interval: int, ops: seq<Op>)
    requires interval > 0
    ensures var log := Run(interval, Begin(), ops).log;
            && (log != [] ==> log[0].pts == 0)
            && forall i :: 0 < i < |log| ==> Spaced(interval, log[i - 1], log[i])
  {
    hide Run, Ideal, Spaced;
    OwnerFollowsIdeal(interval, ops);
    IdealSpaced(interval, Run(interval, Begin(), ops).log);
  }

  /** The frame is one of the last 256 the owner has computed since the last reconnect. */
  predicate AmongLast256(recent: seq<Entry>, s: Stamp) {
    exists i :: 0 <= i < |recent| && |recent| - 256 <= i && recent[i].key == s
  }

  lemma {:induction false} LookupHits(memo: seq<Entry>, s: Stamp)
    requires Lookup(memo, s).Some?
    ensures exists i :: 0 <= i < |memo| && memo[i].key == s
    decreases |memo|
  {
    if memo[0].key != s {
      LookupHits(memo[1..], s);
      var i :| 0 <= i < |memo[1..]| && memo[1..][i].key == s;
      assert memo[i + 1].key == s;
    }
  }

  lemma {:induction false} HitIsRecent(t: Timeline, recent: seq<Entry>, s: Stamp)
    requires Remembers(t, recent) && Lookup(t.memo, s).Some?
    ensures AmongLast256(recent, s)
  {
    hide Lookup, DistinctKeys;
    LookupHits(t.memo, s);
    var j :| 0 <= j < |t.memo| && t.memo[j].key == s;
    var i := j + (|recent| - |t.memo|);
    assert t.memo[j] == recent[i];
  }

  lemma {:induction false} RecentIsHit(interval: int, t: Timeline, recent: seq<Entry>, i: nat, own: bool)
    requires Remembers(t, recent) && |recent| - 256 <= i < |recent|
    ensures Lookup(t.memo, recent[i].key).Some? && Answer(interval, t, recent[i].key, own) == recent[i].pts
  {
    hide Lookup, DistinctKeys, Answer;
    RememberedAnswer(interval, t, recent, i, own);
    var k := |recent| - |t.memo|;
    assert t.memo[i - k] == recent[i];
    LookupFinds(t.memo, i - k);
  }

  /** A frame is remembered exactly as long: whoever asks for its PTS then gets the one computed. */
  lemma {:induction false} RemembersLast256(interval: int, ops: seq<Op>, s: Stamp, own: bool)
    requires interval > 0
    ensures var r := Run(interval, Begin(), ops);
            && (Lookup(r.t.memo, s).Some? <==> AmongLast256(r.recent, s))
            && forall i :: 0 <= i < |r.recent| && |r.recent| - 256 <= i && r.recent[i].key == s ==>
                 Answer(interval, r.t, s, own) == r.recent[i].pts
  {
    hide Run, Answer, Lookup, Remembers;
    RunKeepsMemo(interval, ops);
    var r := Run(interval, Begin(), ops);
    forall i | 0 <= i < |r.recent| && |r.recent| - 256 <= i && r.recent[i].key == s
      ensures Lookup(r.t.memo, s).Some? && Answer(interval, r.t, s, own) == r.recent[i].pts
    {
      RecentIsHit(interval, r.t, r.recent, i, own);
    }
    if Lookup(r.t.memo, s).Some? {
      HitIsRecent(r.t, r.recent, s);
    }
  }

  /** Any other frame is as far from the newest recorded one as the stamps are apart, and at zero before anything is recorded. */
  lemma {:induction false} ReadsExtrapolate(interval: int, ops: seq<Op>, s: Stamp)
    requires interval > 0 && !AmongLast256(Run(interval, Begin(), ops).recent, s)
    ensures var r := Run(interval, Begin(), ops);
            var pts := Answer(interval, r.t, s, false);
            if r.log == [] then pts == 0
            else
              var e := r.log[|r.log| - 1];
              pts >= 0 && (pts == e.pts + (s.ts - e.key.ts) || (pts == 0 && e.pts + (s.ts - e.key.ts) < 0))
  {
    hide Run, Answer, Lookup, AmongLast256;
    RemembersLast256(interval, ops, s, false);
    ReadExtrapolates(interval, ops, s);
  }
}
