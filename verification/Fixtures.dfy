/** Replay of recorded protocol scenarios: each step names a command and what is expected of it. */
module Fixtures {
  import opened Wrappers

  /** What came of one command. A state hash is collision-free, so a changed hash is a changed state. */
  datatype AttemptResult<S, T, E> = AttemptResult(ok: bool, changed: bool, state: S, terminal: Option<T>,
                                                  error: Option<E>)

  /** `expectedErrors` holds of the errors whose text contains the wanted words. */
  datatype Step<C, !E> = Step(command: C, terminalFromState: bool, expectOk: bool, expectChanged: bool,
                                 expectedErrors: Option<E -> bool>)

  datatype Receipt<S, C, T, E> = Receipt(before: S, command: C, result: AttemptResult<S, T, E>)

  datatype FixtureError =
    | TerminalDigestOnlyForAck
    | TerminalDigestBeforeTerminal
    | OkMismatch
    | ChangeMismatch
    | ErrorMismatch
    | UnexpectedError
    | FinalPhaseMismatch
    | FinalAckMismatch

  type Protocol<!S, !C, T, E> = (S, C) -> AttemptResult<S, T, E>

  type Resolver<!S, !C, !E> = (S, Step<C, E>) -> Result<C, FixtureError>

  function Final<S, C, T, E>(attempt: Protocol<S, C, T, E>, s: S, commands: seq<C>): S
    decreases commands
  {
    if commands == [] then s else Final(attempt, attempt(s, commands[0]).state, commands[1..])
  }

  /** The history of a run: those of its commands that changed the state, in order. */
  function Changes<S, C, T, E>(attempt: Protocol<S, C, T, E>, s: S, commands: seq<C>): seq<C>
    decreases commands
  {
    if commands == [] then []
    else
      var result := attempt(s, commands[0]);
      (if result.changed then [commands[0]] else []) + Changes(attempt, result.state, commands[1..])
  }

  /** The first expectation that does not come true. */
  function Mismatch<S, C, T, E>(step: Step<C, E>, result: AttemptResult<S, T, E>): Option<FixtureError> {
    if step.expectOk != result.ok then Some(OkMismatch)
    else if step.expectChanged != result.changed then Some(ChangeMismatch)
    else
      match step.expectedErrors
      case Some(wanted) => if result.error.None? || !wanted(result.error.value) then Some(ErrorMismatch) else None
      case None => if result.error.Some? then Some(UnexpectedError) else None
  }

  /** The command ended as the step says, and its error, if any, is of the wanted kind. */
  ghost predicate Expected<S, C, T, E>(step: Step<C, E>, result: AttemptResult<S, T, E>) {
    && result.ok == step.expectOk && result.changed == step.expectChanged
    && (result.error.Some? <==> step.expectedErrors.Some?)
    && (result.error.Some? && step.expectedErrors.Some? ==> step.expectedErrors.value(result.error.value))
  }

  /** No mismatch is found exactly when the result is as expected. */
  lemma {:induction false} NoMismatchIff<S, C, T, E>(step: Step<C, E>, result: AttemptResult<S, T, E>)
    ensures Mismatch(step, result).None? <==> Expected(step, result)
  {
  }

  /** Step by step: the commands resolve and every recorded expectation comes true. */
  ghost predicate Conforms<S, C, T, E>(attempt: Protocol<S, C, T, E>, resolve: Resolver<S, C, E>, s: S,
                                           steps: seq<Step<C, E>>)
    decreases steps
  {
    steps == [] ||
    (var command := resolve(s, steps[0]);
     command.Ok? &&
     var result := attempt(s, command.value);
     Expected(steps[0], result) && Conforms(attempt, resolve, result.state, steps[1..]))
  }

  /** The commands of a conforming replay. */
  ghost function Resolved<S, C, T, E>(attempt: Protocol<S, C, T, E>, resolve: Resolver<S, C, E>, s: S,
                                          steps: seq<Step<C, E>>): seq<C>
    requires Conforms(attempt, resolve, s, steps)
    decreases steps
  {
    if steps == [] then []
    else
      var command := resolve(s, steps[0]).value;
      [command] + Resolved(attempt, resolve, attempt(s, command).state, steps[1..])
  }

  /** Receipts document a run: each one starts where the one before it ended. */
  ghost predicate Documents<S, C, T, E>(attempt: Protocol<S, C, T, E>, receipts: seq<Receipt<S, C, T, E>>, s: S,
                                        commands: seq<C>)
    decreases commands
  {
    |receipts| == |commands| &&
    (commands == [] ||
     (var result := attempt(s, commands[0]);
      && receipts[0] == Receipt(s, commands[0], result)
      && Documents(attempt, receipts[1..], result.state, commands[1..])))
  }

  lemma {:induction false} DocumentsMore<S, C, T, E>(attempt: Protocol<S, C, T, E>,
                                                     receipts: seq<Receipt<S, C, T, E>>, s: S, commands: seq<C>, c: C)
    requires Documents(attempt, receipts, s, commands)
    ensures var last := Final(attempt, s, commands);
            && Documents(attempt, receipts + [Receipt(last, c, attempt(last, c))], s, commands + [c])
            && Final(attempt, s, commands + [c]) == attempt(last, c).state
    decreases commands
  {
    var last := Final(attempt, s, commands);
    var receipt := Receipt(last, c, attempt(last, c));
    if commands == [] {
      assert [c][1..] == [] && [receipt][1..] == [];
      assert commands + [c] == [c] && receipts + [receipt] == [receipt];
      assert Documents(attempt, [], attempt(s, c).state, []);
    } else {
      assert (commands + [c])[1..] == commands[1..] + [c];
      assert (receipts + [receipt])[1..] == receipts[1..] + [receipt];
      DocumentsMore(attempt, receipts[1..], attempt(s, commands[0]).state, commands[1..], c);
    }
  }

  lemma {:induction false} ConformsUnrolls<S, C, T, E>(attempt: Protocol<S, C, T, E>, resolve: Resolver<S, C, E>,
                                                       s: S, steps: seq<Step<C, E>>, i: nat)
    requires i < |steps|
    ensures Conforms(attempt, resolve, s, steps[i..]) <==>
            var command := resolve(s, steps[i]);
            && command.Ok?
            && Expected(steps[i], attempt(s, command.value))
            && Conforms(attempt, resolve, attempt(s, command.value).state, steps[i + 1..])
    ensures Conforms(attempt, resolve, s, steps[i..]) ==>
            var command := resolve(s, steps[i]).value;
            Resolved(attempt, resolve, s, steps[i..])
            == [command] + Resolved(attempt, resolve, attempt(s, command).state, steps[i + 1..])
  {
    assert steps[i..][0] == steps[i] && steps[i..][1..] == steps[i + 1..];
  }

  lemma {:induction false} NothingToReplay<S, C, T, E>(attempt: Protocol<S, C, T, E>, resolve: Resolver<S, C, E>, s: S)
    ensures Conforms(attempt, resolve, s, []) && Resolved(attempt, resolve, s, []) == []
    ensures Documents(attempt, [], s, []) && Final(attempt, s, []) == s
  {
  }

  /** Replays the steps. It succeeds exactly when every expectation holds, and then the receipts
      document the run of the resolved commands. */
  method ReplaySteps<S, C, T, E>(attempt: Protocol<S, C, T, E>, resolve: Resolver<S, C, E>, initial: S,
                                     steps: seq<Step<C, E>>)
    returns (outcome: Result<(S, seq<Receipt<S, C, T, E>>), FixtureError>)
    ensures outcome.Ok? <==> Conforms(attempt, resolve, initial, steps)
    ensures outcome.Ok? ==>
              && outcome.value.0 == Final(attempt, initial, Resolved(attempt, resolve, initial, steps))
              && Documents(attempt, outcome.value.1, initial, Resolved(attempt, resolve, initial, steps))
  {
    hide Conforms, Resolved, Documents, Final, Mismatch, Expected;
    var state := initial;
    var receipts := [];
    ghost var done := [];
    NothingToReplay(attempt, resolve, initial);
    assert steps[0..] == steps;
    for i := 0 to |steps|
      invariant Documents(attempt, receipts, initial, done) && Final(attempt, initial, done) == state
      invariant Conforms(attempt, resolve, initial, steps) <==> Conforms(attempt, resolve, state, steps[i..])
      invariant Conforms(attempt, resolve, initial, steps) ==>
                  Resolved(attempt, resolve, initial, steps) == done + Resolved(attempt, resolve, state, steps[i..])
    {
      ConformsUnrolls(attempt, resolve, state, steps, i);
      var step := steps[i];
      var command;
      match resolve(state, step) {
        case Err(error) => return Err(error);
        case Ok(resolved) => command := resolved;
      }
      var result := attempt(state, command);
      var mismatch := Mismatch(step, result);
      NoMismatchIff(step, result);
      if mismatch.Some? {
        return Err(mismatch.value);
      }
      DocumentsMore(attempt, receipts, initial, done, command);
      receipts := receipts + [Receipt(state, command, result)];
      done := done + [command];
      state := result.state;
    }
    assert steps[|steps|..] == [];
    NothingToReplay(attempt, resolve, state);
    assert Resolved(attempt, resolve, initial, steps) == done + [] == done;
    return Ok((state, receipts));
  }
}
