/** The replay window of signed requests: a nonce cache that drops entries once their timestamp has
    left the window. Signing is an uninterpreted function. */
module ReplayProtection {
  import opened Wrappers

  type Signer = (string, int, string, string) -> string

  datatype Call = Call(secret: string, timestamp: int, nonce: string, body: string, signature: string, now: int)

  datatype Violation = OutsideWindow | NonceReplay | SignatureMismatch

  type Seen = map<string, int>

  // ------------------------------------------------------------ specification

  predicate InWindow(skew: int, timestamp: int, now: int) {
    -skew <= now - timestamp <= skew
  }

  predicate Authentic(sign: Signer, c: Call) {
    sign(c.secret, c.timestamp, c.nonce, c.body) == c.signature
  }

  function Verdict(sign: Signer, skew: int, seen: Seen, c: Call): Option<Violation> {
    if !InWindow(skew, c.timestamp, c.now) then Some(OutsideWindow)
    else if c.nonce in seen then Some(NonceReplay)
    else if !Authentic(sign, c) then Some(SignatureMismatch)
    else None
  }

  predicate Accepts(sign: Signer, skew: int, seen: Seen, c: Call) {
    Verdict(sign, skew, seen, c).None?
  }

  function Pruned(seen: Seen, cutoff: int): Seen {
    map nonce | nonce in seen && seen[nonce] >= cutoff :: seen[nonce]
  }

  function Step(sign: Signer, skew: int, seen: Seen, c: Call): Seen {
    if Accepts(sign, skew, seen, c) then Pruned(seen[c.nonce := c.timestamp], c.now - skew) else seen
  }

  function Run(sign: Signer, skew: int, seen: Seen, calls: seq<Call>): Seen
    decreases calls
  {
    if calls == [] then seen else Run(sign, skew, Step(sign, skew, seen, calls[0]), calls[1..])
  }

  function Verdicts(sign: Signer, skew: int, seen: Seen, calls: seq<Call>): seq<Option<Violation>>
    decreases calls
  {
    if calls == [] then []
    else [Verdict(sign, skew, seen, calls[0])] + Verdicts(sign, skew, Step(sign, skew, seen, calls[0]), calls[1..])
  }

  /** The clock, last read at `clock`, never goes back. */
  ghost predicate ClockRises(clock: int, calls: seq<Call>)
    decreases calls
  {
    calls == [] || (clock <= calls[0].now && ClockRises(calls[0].now, calls[1..]))
  }

  function ClockAfter(clock: int, calls: seq<Call>): int
    decreases calls
  {
    if calls == [] then clock else ClockAfter(calls[0].now, calls[1..])
  }

  // -------------------------------------------------------------- the window

  class ReplayWindow {
    const maxSkewSeconds: int
    var seen: Seen

    constructor (maxSkewSeconds: int)
      ensures this.maxSkewSeconds == maxSkewSeconds && seen == map[]
    {
      this.maxSkewSeconds := maxSkewSeconds;
      seen := map[];
    }

    method Verify(sign: Signer, c: Call) returns (violation: Option<Violation>)
      modifies this
      ensures violation == Verdict(sign, maxSkewSeconds, old(seen), c)
      ensures seen == Step(sign, maxSkewSeconds, old(seen), c)
      ensures violation.None? ==> forall nonce :: nonce in seen ==> c.now - seen[nonce] <= maxSkewSeconds
    {
      var distance := if c.now < c.timestamp then c.timestamp - c.now else c.now - c.timestamp;
      if distance > maxSkewSeconds {
        return Some(OutsideWindow);
      }
      if c.nonce in seen {
        return Some(NonceReplay);
      }
      var expected := sign(c.secret, c.timestamp, c.nonce, c.body);
      if expected != c.signature {
        return Some(SignatureMismatch);
      }
      seen := seen[c.nonce := c.timestamp];
      var cutoff := c.now - maxSkewSeconds;
      seen := map nonce | nonce in seen && seen[nonce] >= cutoff :: seen[nonce];
      return None;
    }
  }

  // ------------------------------------------------------- replay protection

  /** The pair cannot pass any more: its entry is still there or its timestamp has left the window. */
  ghost predicate Guarded(skew: int, seen: Seen, clock: int, nonce: string, timestamp: int) {
    (nonce in seen && seen[nonce] == timestamp) || clock - timestamp > skew
  }

  lemma {:induction false} StaysGuarded(sign: Signer, skew: int, seen: Seen, clock: int, calls: seq<Call>,
                                        nonce: string, timestamp: int)
    requires ClockRises(clock, calls) && Guarded(skew, seen, clock, nonce, timestamp)
    ensures Guarded(skew, Run(sign, skew, seen, calls), ClockAfter(clock, calls), nonce, timestamp)
    decreases calls
  {
    if calls != [] {
      StaysGuarded(sign, skew, Step(sign, skew, seen, calls[0]), calls[0].now, calls[1..], nonce, timestamp);
    }
  }

  /** While the clock never goes back, no nonce and timestamp are accepted twice, however much was
      dropped in between. */
  lemma {:induction false} NoReplayWhileClockRises(sign: Signer, skew: int, seen: Seen, first: Call,
                                                   between: seq<Call>, again: Call)
    requires Accepts(sign, skew, seen, first)
    requires again.nonce == first.nonce && again.timestamp == first.timestamp
    requires ClockRises(first.now, between) && ClockAfter(first.now, between) <= again.now
    ensures !Accepts(sign, skew, Run(sign, skew, Step(sign, skew, seen, first), between), again)
  {
    var after := Step(sign, skew, seen, first);
    assert first.nonce in after && after[first.nonce] == first.timestamp;
    StaysGuarded(sign, skew, after, first.now, between, first.nonce, first.timestamp);
  }

  /** Some accepted call read a clock at which `timestamp` had already left the window. */
  ghost predicate OutlivedBy(sign: Signer, skew: int, seen: Seen, calls: seq<Call>, timestamp: int)
    decreases calls
  {
    calls != [] &&
    ((Accepts(sign, skew, seen, calls[0]) && calls[0].now - timestamp > skew)
     || OutlivedBy(sign, skew, Step(sign, skew, seen, calls[0]), calls[1..], timestamp))
  }

  /** No call of the run is accepted under `nonce`. */
  ghost predicate NoneAcceptedUnder(sign: Signer, skew: int, seen: Seen, calls: seq<Call>, nonce: string)
    decreases calls
  {
    calls == [] ||
    (!(Accepts(sign, skew, seen, calls[0]) && calls[0].nonce == nonce)
     && NoneAcceptedUnder(sign, skew, Step(sign, skew, seen, calls[0]), calls[1..], nonce))
  }

  lemma {:induction false} DroppedIffOutlived(sign: Signer, skew: int, seen: Seen, calls: seq<Call>, nonce: string,
                                              timestamp: int)
    requires nonce in seen ==> seen[nonce] == timestamp
    requires NoneAcceptedUnder(sign, skew, seen, calls, nonce)
    ensures var after := Run(sign, skew, seen, calls);
            && (nonce in after ==> after[nonce] == timestamp)
            && (nonce in after <==> nonce in seen && !OutlivedBy(sign, skew, seen, calls, timestamp))
    decreases calls
  {
    if calls != [] {
      DroppedIffOutlived(sign, skew, Step(sign, skew, seen, calls[0]), calls[1..], nonce, timestamp);
    }
  }

  /** On any clock, with `first` the last call accepted under its nonce: a further authentic request under
      that nonce, with the same timestamp or another one, passes exactly when some call accepted in between
      read a clock past the window of `first` and the request itself is inside its window. */
  lemma {:induction false} ReplayPassesIffClockStepsBack(sign: Signer, skew: int, seen: Seen, first: Call,
                                                         between: seq<Call>, again: Call)
    requires Accepts(sign, skew, seen, first)
    requires again.nonce == first.nonce && Authentic(sign, again)
    requires NoneAcceptedUnder(sign, skew, Step(sign, skew, seen, first), between, first.nonce)
    ensures var after := Step(sign, skew, seen, first);
            Accepts(sign, skew, Run(sign, skew, after, between), again)
            <==> OutlivedBy(sign, skew, after, between, first.timestamp) && InWindow(skew, again.timestamp, again.now)
  {
    var after := Step(sign, skew, seen, first);
    assert first.nonce in after;
    DroppedIffOutlived(sign, skew, after, between, first.nonce, first.timestamp);
  }

  lemma {:induction false} RunSplits(sign: Signer, skew: int, seen: Seen, calls: seq<Call>, k: nat)
    requires k < |calls|
    ensures Run(sign, skew, seen, calls)
            == Run(sign, skew, Step(sign, skew, Run(sign, skew, seen, calls[..k]), calls[k]), calls[k + 1..])
    decreases calls
  {
    if k == 0 {
      assert calls[..0] == [];
    } else {
      assert calls[..k][0] == calls[0] && calls[..k][1..] == calls[1..][..k - 1];
      assert calls[1..][k..] == calls[k + 1..];
      RunSplits(sign, skew, Step(sign, skew, seen, calls[0]), calls[1..], k - 1);
    }
  }

  /** Call `k` of the run is the last one accepted under `nonce`. */
  ghost predicate LastAccepted(sign: Signer, skew: int, seen: Seen, calls: seq<Call>, k: nat, nonce: string)
    requires k < |calls|
  {
    var reached := Run(sign, skew, seen, calls[..k]);
    && calls[k].nonce == nonce && Accepts(sign, skew, reached, calls[k])
    && NoneAcceptedUnder(sign, skew, Step(sign, skew, reached, calls[k]), calls[k + 1..], nonce)
  }

  /** A later accepted call read a clock past the window of call `k`. */
  ghost predicate Outlived(sign: Signer, skew: int, seen: Seen, calls: seq<Call>, k: nat)
    requires k < |calls|
  {
    var reached := Run(sign, skew, seen, calls[..k]);
    OutlivedBy(sign, skew, Step(sign, skew, reached, calls[k]), calls[k + 1..], calls[k].timestamp)
  }

  /** Every run has a last acceptance under a nonce, or none. */
  lemma {:induction false} HasLastAccepted(sign: Signer, skew: int, seen: Seen, calls: seq<Call>, nonce: string)
    returns (k: nat)
    ensures k <= |calls|
    ensures k == |calls| ==> NoneAcceptedUnder(sign, skew, seen, calls, nonce)
    ensures k < |calls| ==> LastAccepted(sign, skew, seen, calls, k, nonce)
    decreases calls
  {
    if calls == [] {
      return 0;
    }
    var j := HasLastAccepted(sign, skew, Step(sign, skew, seen, calls[0]), calls[1..], nonce);
    if j < |calls| - 1 {
      k := j + 1;
      assert calls[..k][0] == calls[0] && calls[..k][1..] == calls[1..][..j];
      assert calls[1..][j + 1..] == calls[k + 1..];
    } else if calls[0].nonce == nonce && Accepts(sign, skew, seen, calls[0]) {
      k := 0;
      assert calls[..0] == [];
    } else {
      k := |calls|;
    }
  }

  lemma {:induction false} BarsUnlessOutlived(sign: Signer, skew: int, seen: Seen, calls: seq<Call>, k: nat,
                                              nonce: string)
    requires k < |calls| && LastAccepted(sign, skew, seen, calls, k, nonce)
    ensures nonce in Run(sign, skew, seen, calls) <==> !Outlived(sign, skew, seen, calls, k)
  {
    var after := Step(sign, skew, Run(sign, skew, seen, calls[..k]), calls[k]);
    RunSplits(sign, skew, seen, calls, k);
    assert nonce in after && after[nonce] == calls[k].timestamp;
    DroppedIffOutlived(sign, skew, after, calls[k + 1..], nonce, calls[k].timestamp);
  }

  /** The last acceptance under `nonce`, if there is one, was outlived. */
  ghost predicate Free(sign: Signer, skew: int, calls: seq<Call>, nonce: string) {
    forall k :: 0 <= k < |calls| && LastAccepted(sign, skew, map[], calls, k, nonce) ==>
      Outlived(sign, skew, map[], calls, k)
  }

  /** The exact verdict over every run from the empty cache, on any clock: a request passes if and only if its
      timestamp is at most `skew` away from the clock, no acceptance under its nonce still stands, and it is
      signed; otherwise the first of these that fails is reported. */
  lemma {:induction false} PassesIffFree(sign: Signer, skew: int, calls: seq<Call>, c: Call)
    ensures Verdict(sign, skew, Run(sign, skew, map[], calls), c)
            == if c.timestamp - c.now > skew || c.now - c.timestamp > skew then Some(OutsideWindow)
               else if !Free(sign, skew, calls, c.nonce) then Some(NonceReplay)
               else if sign(c.secret, c.timestamp, c.nonce, c.body) != c.signature then Some(SignatureMismatch)
               else None
  {
    hide LastAccepted, Outlived;
    var k := HasLastAccepted(sign, skew, map[], calls, c.nonce);
    if k < |calls| {
      BarsUnlessOutlived(sign, skew, map[], calls, k, c.nonce);
    } else {
      DroppedIffOutlived(sign, skew, map[], calls, c.nonce, 0);
    }
    forall j | 0 <= j < |calls| && LastAccepted(sign, skew, map[], calls, j, c.nonce)
      ensures c.nonce in Run(sign, skew, map[], calls) <==> !Outlived(sign, skew, map[], calls, j)
    {
      BarsUnlessOutlived(sign, skew, map[], calls, j, c.nonce);
    }
  }

  // ------------------------------------------------------------ what is retained

  /** No retained timestamp lies further ahead of `clock` than the window reaches. */
  ghost predicate NoneFromTheFuture(skew: int, seen: Seen, clock: int) {
    forall nonce :: nonce in seen ==> seen[nonce] - clock <= skew
  }

  lemma {:induction false} RunKeepsNoneFromTheFuture(sign: Signer, skew: int, seen: Seen, clock: int, calls: seq<Call>)
    requires ClockRises(clock, calls) && NoneFromTheFuture(skew, seen, clock)
    ensures NoneFromTheFuture(skew, Run(sign, skew, seen, calls), ClockAfter(clock, calls))
    decreases calls
  {
    if calls != [] {
      RunKeepsNoneFromTheFuture(sign, skew, Step(sign, skew, seen, calls[0]), calls[0].now, calls[1..]);
    }
  }

  /** After every accepted call of every run on a rising clock, each retained entry is inside the window. */
  lemma {:induction false} RetainedIsInWindow(sign: Signer, skew: int, clock: int, calls: seq<Call>, c: Call)
    requires ClockRises(clock, calls) && ClockAfter(clock, calls) <= c.now
    requires Accepts(sign, skew, Run(sign, skew, map[], calls), c)
    ensures var after := Step(sign, skew, Run(sign, skew, map[], calls), c);
            forall nonce :: nonce in after ==> InWindow(skew, after[nonce], c.now)
  {
    RunKeepsNoneFromTheFuture(sign, skew, map[], clock, calls);
  }

  // ------------------------------------------------ agreement with a full cache

  /** The same check with a cache that drops nothing. */
  function FullStep(sign: Signer, skew: int, seen: Seen, c: Call): Seen {
    if Accepts(sign, skew, seen, c) then seen[c.nonce := c.timestamp] else seen
  }

  function FullVerdicts(sign: Signer, skew: int, seen: Seen, calls: seq<Call>): seq<Option<Violation>>
    decreases calls
  {
    if calls == [] then []
    else
      [Verdict(sign, skew, seen, calls[0])]
      + FullVerdicts(sign, skew, FullStep(sign, skew, seen, calls[0]), calls[1..])
  }

  /** What the two caches hold after `accepted`, the calls accepted so far, the last of them no later than
      `clock`: the full one their nonces and timestamps, the pruned one those that the last of them kept. */
  ghost predicate Describes(skew: int, accepted: seq<Call>, pruned: Seen, full: Seen, clock: int) {
    && (forall nonce :: nonce in full ==> AcceptedUnder(accepted, nonce))
    && (forall k :: 0 <= k < |accepted| ==> Holds(full, accepted[k].nonce, accepted[k].timestamp))
    && (forall nonce :: nonce in pruned ==> nonce in full && pruned[nonce] == full[nonce])
    && (accepted != [] ==>
          && accepted[|accepted| - 1].now <= clock
          && forall nonce :: nonce in full ==>
               (nonce in pruned <==> full[nonce] >= accepted[|accepted| - 1].now - skew))
  }

  ghost predicate AcceptedUnder(accepted: seq<Call>, nonce: string) {
    exists k :: 0 <= k < |accepted| && accepted[k].nonce == nonce
  }

  ghost predicate Holds(seen: Seen, nonce: string, timestamp: int) {
    nonce in seen && seen[nonce] == timestamp
  }

  /** `c` is inside the window, under a nonce accepted before with a timestamp that had left the window
      when the last call was accepted. */
  ghost predicate ReusesExpired(skew: int, accepted: seq<Call>, c: Call) {
    && InWindow(skew, c.timestamp, c.now)
    && exists k :: 0 <= k < |accepted| && accepted[k].nonce == c.nonce
                   && accepted[k].timestamp < accepted[|accepted| - 1].now - skew
  }

  function Accepted(sign: Signer, skew: int, seen: Seen, accepted: seq<Call>, c: Call): seq<Call> {
    if Accepts(sign, skew, seen, c) then accepted + [c] else accepted
  }

  /** Some call of the run, given what was accepted before it, reuses an expired nonce. */
  ghost predicate SomeReuse(sign: Signer, skew: int, seen: Seen, accepted: seq<Call>, calls: seq<Call>)
    decreases calls
  {
    calls != [] &&
    (ReusesExpired(skew, accepted, calls[0])
     || SomeReuse(sign, skew, Step(sign, skew, seen, calls[0]), Accepted(sign, skew, seen, accepted, calls[0]),
                  calls[1..]))
  }

  /** The two caches disagree on a call exactly when it reuses an expired nonce. */
  lemma {:induction false} DisagreeIffExpiredReused(sign: Signer, skew: int, accepted: seq<Call>, pruned: Seen,
                                                    full: Seen, clock: int, c: Call)
    requires Describes(skew, accepted, pruned, full, clock)
    ensures Verdict(sign, skew, pruned, c) != Verdict(sign, skew, full, c) <==> ReusesExpired(skew, accepted, c)
  {
    if c.nonce in full {
      assert AcceptedUnder(accepted, c.nonce);
      var k :| 0 <= k < |accepted| && accepted[k].nonce == c.nonce;
      assert Holds(full, accepted[k].nonce, accepted[k].timestamp);
    }
    if ReusesExpired(skew, accepted, c) {
      var k :| 0 <= k < |accepted| && accepted[k].nonce == c.nonce
               && accepted[k].timestamp < accepted[|accepted| - 1].now - skew;
      assert Holds(full, accepted[k].nonce, accepted[k].timestamp);
    }
  }

  lemma {:induction false} AgreementKeepsDescribes(sign: Signer, skew: int, accepted: seq<Call>, pruned: Seen,
                                                   full: Seen, clock: int, c: Call)
    requires Describes(skew, accepted, pruned, full, clock) && clock <= c.now
    requires Verdict(sign, skew, pruned, c) == Verdict(sign, skew, full, c)
    ensures Describes(skew, Accepted(sign, skew, pruned, accepted, c), Step(sign, skew, pruned, c),
                      FullStep(sign, skew, full, c), c.now)
  {
    if Accepts(sign, skew, pruned, c) {
      var more := accepted + [c];
      forall nonce | nonce in full[c.nonce := c.timestamp] ensures AcceptedUnder(more, nonce) {
        if nonce == c.nonce {
          assert more[|accepted|].nonce == nonce;
        } else {
          var k :| 0 <= k < |accepted| && accepted[k].nonce == nonce;
          assert more[k].nonce == nonce;
        }
      }
      forall k | 0 <= k < |more|
        ensures Holds(full[c.nonce := c.timestamp], more[k].nonce, more[k].timestamp)
      {
        assert k < |accepted| ==> Holds(full, accepted[k].nonce, accepted[k].timestamp);
      }
    }
  }

  /** The exact condition from any point of a run on: while the clock rises, dropping entries shows in some
      verdict if and only if some call reuses an expired nonce. */
  lemma {:induction false} PruningShowsIffReused(sign: Signer, skew: int, accepted: seq<Call>, pruned: Seen,
                                                 full: Seen, clock: int, calls: seq<Call>)
    requires Describes(skew, accepted, pruned, full, clock) && ClockRises(clock, calls)
    ensures Verdicts(sign, skew, pruned, calls) != FullVerdicts(sign, skew, full, calls)
            <==> SomeReuse(sign, skew, pruned, accepted, calls)
    decreases calls
  {
    if calls != [] {
      var c := calls[0];
      DisagreeIffExpiredReused(sign, skew, accepted, pruned, full, clock, c);
      assert Verdicts(sign, skew, pruned, calls)[0] == Verdict(sign, skew, pruned, c);
      assert FullVerdicts(sign, skew, full, calls)[0] == Verdict(sign, skew, full, c);
      if !ReusesExpired(skew, accepted, c) {
        AgreementKeepsDescribes(sign, skew, accepted, pruned, full, clock, c);
        PruningShowsIffReused(sign, skew, Accepted(sign, skew, pruned, accepted, c), Step(sign, skew, pruned, c),
                              FullStep(sign, skew, full, c), c.now, calls[1..]);
        assert Verdicts(sign, skew, pruned, calls)[1..]
            == Verdicts(sign, skew, Step(sign, skew, pruned, c), calls[1..]);
        assert FullVerdicts(sign, skew, full, calls)[1..]
            == FullVerdicts(sign, skew, FullStep(sign, skew, full, c), calls[1..]);
      }
    }
  }

  /** Over whole runs on a rising clock, from the empty cache: all verdicts are those of a cache that drops
      nothing if and only if no call presents, inside the window, a nonce accepted before whose timestamp
      had left the window when the last call was accepted. */
  lemma {:induction false} AgreesIffNoReuse(sign: Signer, skew: int, clock: int, calls: seq<Call>)
    requires ClockRises(clock, calls)
    ensures Verdicts(sign, skew, map[], calls) == FullVerdicts(sign, skew, map[], calls)
            <==> !SomeReuse(sign, skew, map[], [], calls)
  {
    PruningShowsIffReused(sign, skew, [], map[], map[], clock, calls);
  }

  /** Every nonce of the run carries one timestamp. */
  ghost predicate Stamped(stamp: string -> int, calls: seq<Call>) {
    forall i :: 0 <= i < |calls| ==> calls[i].timestamp == stamp(calls[i].nonce)
  }

  lemma {:induction false} StampedNeverReuses(sign: Signer, skew: int, seen: Seen, accepted: seq<Call>, clock: int,
                                              calls: seq<Call>, stamp: string -> int)
    requires ClockRises(clock, calls) && Stamped(stamp, calls) && Stamped(stamp, accepted)
    requires accepted != [] ==> accepted[|accepted| - 1].now <= clock
    ensures !SomeReuse(sign, skew, seen, accepted, calls)
    decreases calls
  {
    if calls != [] {
      var c := calls[0];
      assert c.timestamp == stamp(c.nonce);
      StampedNeverReuses(sign, skew, Step(sign, skew, seen, c), Accepted(sign, skew, seen, accepted, c), c.now,
                         calls[1..], stamp);
    }
  }

  /** So on a rising clock, and as long as no nonce is reused under a new timestamp, dropping entries never
      shows, from any point of a run on. */
  lemma {:induction false} PruningNeverShows(sign: Signer, skew: int, accepted: seq<Call>, pruned: Seen, full: Seen,
                                             clock: int, calls: seq<Call>, stamp: string -> int)
    requires Describes(skew, accepted, pruned, full, clock) && ClockRises(clock, calls)
    requires Stamped(stamp, accepted) && Stamped(stamp, calls)
    ensures Verdicts(sign, skew, pruned, calls) == FullVerdicts(sign, skew, full, calls)
  {
    StampedNeverReuses(sign, skew, pruned, accepted, clock, calls, stamp);
    PruningShowsIffReused(sign, skew, accepted, pruned, full, clock, calls);
  }

  /** The two do differ: a nonce whose entry was dropped is accepted again with a new timestamp, which a
      full cache refuses. */
  lemma {:induction false} ReusedNonceShows(sign: Signer, skew: nat, body: string)
    ensures var late := skew + 1;
            var calls := [Call("", 0, "n", body, sign("", 0, "n", body), 0),
                          Call("", late, "m", body, sign("", late, "m", body), late),
                          Call("", late, "n", body, sign("", late, "n", body), late)];
            && ClockRises(0, calls)
            && Verdicts(sign, skew, map[], calls) == [None, None, None]
            && FullVerdicts(sign, skew, map[], calls) == [None, None, Some(NonceReplay)]
  {
    var late := skew + 1;
    var a := Call("", 0, "n", body, sign("", 0, "n", body), 0);
    var b := Call("", late, "m", body, sign("", late, "m", body), late);
    var c := Call("", late, "n", body, sign("", late, "n", body), late);
    assert [a, b, c][1..] == [b, c] && [b, c][1..] == [c] && [c][1..] == [];
    assert ClockRises(late, [c]) && ClockRises(0, [b, c]);
    var one := Step(sign, skew, map[], a);
    assert one == map["n" := 0];
    var two := Step(sign, skew, one, b);
    assert two == map["m" := late];
    assert Verdicts(sign, skew, two, [c]) == [None] + Verdicts(sign, skew, Step(sign, skew, two, c), []);
    assert Verdicts(sign, skew, one, [b, c]) == [None] + [None];
    assert Verdicts(sign, skew, map[], [a, b, c]) == [None] + ([None] + [None]);
    var fullTwo := FullStep(sign, skew, one, b);
    assert FullVerdicts(sign, skew, fullTwo, [c])
        == [Some(NonceReplay)] + FullVerdicts(sign, skew, FullStep(sign, skew, fullTwo, c), []);
    assert FullVerdicts(sign, skew, one, [b, c]) == [None] + [Some(NonceReplay)];
    assert FullStep(sign, skew, map[], a) == one;
    assert FullVerdicts(sign, skew, map[], [a, b, c]) == [None] + ([None] + [Some(NonceReplay)]);
  }

  /** A clock that steps back lets one request through twice. */
  lemma {:induction false} SteppedBackClockReplays(sign: Signer, skew: nat, body: string)
    ensures var late := skew + 1;
            var request := Call("", 0, "n", body, sign("", 0, "n", body), 0);
            var other := Call("", late, "m", body, sign("", late, "m", body), late);
            Verdicts(sign, skew, map[], [request, other, request]) == [None, None, None]
  {
    var late := skew + 1;
    var a := Call("", 0, "n", body, sign("", 0, "n", body), 0);
    var b := Call("", late, "m", body, sign("", late, "m", body), late);
    assert [a, b, a][1..] == [b, a] && [b, a][1..] == [a] && [a][1..] == [];
    var one := Step(sign, skew, map[], a);
    assert one == map["n" := 0];
    var two := Step(sign, skew, one, b);
    assert two == map["m" := late];
    assert Verdicts(sign, skew, two, [a]) == [None] + Verdicts(sign, skew, Step(sign, skew, two, a), []);
    assert Verdicts(sign, skew, one, [b, a]) == [None] + [None];
    assert Verdicts(sign, skew, map[], [a, b, a]) == [None] + ([None] + [None]);
  }
}
