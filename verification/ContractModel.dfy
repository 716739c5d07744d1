/** The reference store of the contract-model test kit: an idempotency-keyed key/value store, the
    generator of valid command traces and the replay with repeated deliveries. */
module ContractModel {
  import opened Wrappers
  import opened Sequences

  /** Entity ids and idempotency keys. A formatted name is determined by its parts. */
  datatype Name = Text(text: string) | Numbered(prefix: string, seed: int, number: int)

  datatype Kind = Create | Update | Delete | Unknown(name: string)

  datatype Value = Written(text: string) | Random(number: int)

  datatype Command = Command(kind: Kind, entity: Name, value: Option<Value>, key: Name)

  /** The fingerprint of a command: everything but its key, collision-free. */
  datatype Intent = Intent(kind: Kind, entity: Name, value: Option<Value>)

  datatype Outcome = Outcome(revision: int, entity: Name, value: Option<Value>, deleted: bool)

  datatype Rejection = IdempotencyConflict | CreateRejected | UpdateRejected | DeleteRejected | UnknownKind

  datatype Receipt = Receipt(intent: Intent, outcome: Outcome)

  datatype Store = Store(
    values: map<Name, Value>,
    tombstones: set<Name>,
    revision: int,
    dedupe: map<Name, Receipt>,
    history: seq<Outcome>)

  const EMPTY := Store(map[], {}, 0, map[], [])

  function Fingerprint(c: Command): Intent {
    Intent(c.kind, c.entity, c.value)
  }

  // ------------------------------------------------------------ specification

  function Refusal(s: Store, c: Command): Option<Rejection> {
    match c.kind
    case Create => if c.value.None? || c.entity in s.values then Some(CreateRejected) else None
    case Update => if c.value.None? || c.entity !in s.values then Some(UpdateRejected) else None
    case Delete => if c.entity !in s.values then Some(DeleteRejected) else None
    case Unknown(_) => Some(UnknownKind)
  }

  /** What `c` does to a plain map that knows nothing of keys, revisions or history. */
  function Plain(values: map<Name, Value>, c: Command): map<Name, Value> {
    if c.kind == Delete || c.value.None? then values - {c.entity} else values[c.entity := c.value.value]
  }

  function OutcomeOf(s: Store, c: Command): Outcome {
    Outcome(s.revision + 1, c.entity, if c.kind == Delete then None else c.value, c.kind == Delete)
  }

  function Perform(s: Store, c: Command): Store {
    var outcome := OutcomeOf(s, c);
    Store(Plain(s.values, c),
          match c.kind {
            case Create => s.tombstones - {c.entity}
            case Delete => s.tombstones + {c.entity}
            case _ => s.tombstones
          },
          s.revision + 1,
          s.dedupe[c.key := Receipt(Fingerprint(c), outcome)],
          s.history + [outcome])
  }

  function Respond(s: Store, c: Command): Result<Outcome, Rejection> {
    if c.key in s.dedupe then
      if s.dedupe[c.key].intent != Fingerprint(c) then Err(IdempotencyConflict) else Ok(s.dedupe[c.key].outcome)
    else
      match Refusal(s, c)
      case Some(rejection) => Err(rejection)
      case None => Ok(OutcomeOf(s, c))
  }

  function Step(s: Store, c: Command): Store {
    if c.key in s.dedupe || Refusal(s, c).Some? then s else Perform(s, c)
  }

  function Run(s: Store, commands: seq<Command>): Store
    decreases commands
  {
    if commands == [] then s else Run(Step(s, commands[0]), commands[1..])
  }

  ghost predicate AllAccepted(s: Store, commands: seq<Command>)
    decreases commands
  {
    commands == [] || (Respond(s, commands[0]).Ok? && AllAccepted(Step(s, commands[0]), commands[1..]))
  }

  /** Every command is accepted and carries a key that was not used before. */
  ghost predicate AllFresh(s: Store, commands: seq<Command>)
    decreases commands
  {
    commands == [] ||
    (Respond(s, commands[0]).Ok? && commands[0].key !in s.dedupe && AllFresh(Step(s, commands[0]), commands[1..]))
  }

  // --------------------------------------------------------------- the store

  class ReferenceStore {
    var values: map<Name, Value>
    var tombstones: set<Name>
    var revision: int
    var dedupe: map<Name, Receipt>
    var history: seq<Outcome>
    /** The commands delivered so far. */
    ghost var deliveries: seq<Command>

    ghost function Contents(): Store
      reads this
    {
      Store(values, tombstones, revision, dedupe, history)
    }

    constructor ()
      ensures Contents() == EMPTY && deliveries == []
    {
      values, tombstones, revision, dedupe, history := map[], {}, 0, map[], [];
      deliveries := [];
    }

    method Apply(c: Command) returns (response: Result<Outcome, Rejection>)
      modifies this
      ensures Contents() == Step(old(Contents()), c)
      ensures response == Respond(old(Contents()), c)
      ensures deliveries == old(deliveries) + [c]
    {
      deliveries := deliveries + [c];
      var fingerprint := Fingerprint(c);
      if c.key in dedupe {
        var prior := dedupe[c.key];
        if prior.intent != fingerprint {
          return Err(IdempotencyConflict);
        }
        return Ok(prior.outcome);
      }
      var deleted;
      match c.kind {
        case Create =>
          if c.value.None? || c.entity in values {
            return Err(CreateRejected);
          }
          values := values[c.entity := c.value.value];
          tombstones := tombstones - {c.entity};
          deleted := false;
        case Update =>
          if c.value.None? || c.entity !in values {
            return Err(UpdateRejected);
          }
          values := values[c.entity := c.value.value];
          deleted := false;
        case Delete =>
          if c.entity !in values {
            return Err(DeleteRejected);
          }
          values := values - {c.entity};
          tombstones := tombstones + {c.entity};
          deleted := true;
        case Unknown(_) =>
          return Err(UnknownKind);
      }
      revision := revision + 1;
      var outcome := Outcome(revision, c.entity, if deleted then None else Some(values[c.entity]), deleted);
      dedupe := dedupe[c.key := Receipt(fingerprint, outcome)];
      history := history + [outcome];
      return Ok(outcome);
    }
  }

  // ------------------------------------------------ what every store satisfies

  function Concerns(entity: Name): Outcome -> bool {
    (o: Outcome) => o.entity == entity
  }

  /** The last recorded outcome about `entity`. */
  function Latest(history: seq<Outcome>, entity: Name): Option<Outcome> {
    Last(history, Concerns(entity))
  }

  /** Whether `entity` is live, deleted or unknown, and with what value, is what history says last. */
  ghost predicate Reflects(s: Store, entity: Name) {
    match Latest(s.history, entity)
    case None => entity !in s.values && entity !in s.tombstones
    case Some(o) =>
      if o.deleted then entity !in s.values && entity in s.tombstones
      else entity in s.values && Some(s.values[entity]) == o.value && entity !in s.tombstones
  }

  ghost predicate NumberedHistory(s: Store) {
    && s.revision == |s.history|
    && forall i :: 0 <= i < |s.history| ==> s.history[i].revision == i + 1
  }

  /** Every key in use stands for one entry of history, and there is one key per revision. */
  ghost predicate KeysRecorded(s: Store) {
    && |s.dedupe| == s.revision
    && forall k :: k in s.dedupe ==> Recorded(s, s.dedupe[k].outcome)
  }

  ghost predicate Recorded(s: Store, o: Outcome) {
    1 <= o.revision <= |s.history| && s.history[o.revision - 1] == o
  }

  ghost predicate Consistent(s: Store) {
    NumberedHistory(s) && KeysRecorded(s) && forall entity :: Reflects(s, entity)
  }

  lemma {:induction false} PerformReflects(s: Store, c: Command, entity: Name)
    requires Respond(s, c).Ok? && c.key !in s.dedupe && Reflects(s, entity)
    ensures Reflects(Perform(s, c), entity)
  {
    LastOfMore(s.history, OutcomeOf(s, c), Concerns(entity));
  }

  lemma {:induction false} PerformKeepsNumbering(s: Store, c: Command)
    requires NumberedHistory(s)
    ensures NumberedHistory(Perform(s, c))
  {
  }

  lemma {:induction false} PerformRecordsKey(s: Store, c: Command)
    requires KeysRecorded(s) && NumberedHistory(s) && c.key !in s.dedupe
    ensures KeysRecorded(Perform(s, c))
  {
    var t := Perform(s, c);
    assert t.dedupe.Keys == s.dedupe.Keys + {c.key};
    assert |t.dedupe| == |t.dedupe.Keys| && |s.dedupe| == |s.dedupe.Keys|;
    forall k | k in t.dedupe
      ensures Recorded(t, t.dedupe[k].outcome)
    {
      assert k != c.key ==> Recorded(s, s.dedupe[k].outcome);
    }
  }

  lemma {:induction false} StepKeepsConsistent(s: Store, c: Command)
    requires Consistent(s)
    ensures Consistent(Step(s, c))
  {
    hide Reflects, KeysRecorded, Perform;
    if c.key !in s.dedupe && Refusal(s, c).None? {
      PerformKeepsNumbering(s, c);
      PerformRecordsKey(s, c);
      forall entity
        ensures Reflects(Perform(s, c), entity)
      {
        PerformReflects(s, c, entity);
      }
    }
  }

  /** No run leaves consistency, and consistent stores keep live keys and tombstones apart. */
  lemma {:induction false} RunKeepsConsistent(s: Store, commands: seq<Command>)
    requires Consistent(s)
    ensures Consistent(Run(s, commands)) && Run(s, commands).values.Keys !! Run(s, commands).tombstones
    decreases commands
  {
    if commands == [] {
      forall entity | entity in s.values.Keys
        ensures entity !in s.tombstones
      {
        assert Reflects(s, entity);
      }
    } else {
      StepKeepsConsistent(s, commands[0]);
      RunKeepsConsistent(Step(s, commands[0]), commands[1..]);
    }
  }

  lemma {:induction false} EmptyIsConsistent()
    ensures Consistent(EMPTY)
  {
    assert |EMPTY.dedupe| == 0;
    forall entity ensures Reflects(EMPTY, entity) {
      assert Latest(EMPTY.history, entity) == None;
    }
  }

  /** Every store that any commands build up from the empty one: revisions are exactly 1..n, live keys and
      tombstones are disjoint, keys stand for history entries, and the contents are what history says last. */
  lemma {:induction false} ReachableIsConsistent(commands: seq<Command>)
    ensures var s := Run(EMPTY, commands); Consistent(s) && s.values.Keys !! s.tombstones
  {
    EmptyIsConsistent();
    RunKeepsConsistent(EMPTY, commands);
  }

  /** A command changes the store exactly when it is accepted under a key not used before. */
  lemma {:induction false} RejectedChangesNothing(s: Store, c: Command)
    ensures Step(s, c) != s <==> Respond(s, c).Ok? && c.key !in s.dedupe
    ensures Respond(s, c).Err? ==> Step(s, c) == s
  {
    if Respond(s, c).Ok? && c.key !in s.dedupe {
      assert Step(s, c).revision == s.revision + 1;
    }
  }

  // --------------------------------------------------------- idempotent keys

  lemma {:induction false} RunKeepsReceipts(s: Store, commands: seq<Command>, key: Name)
    requires key in s.dedupe
    ensures key in Run(s, commands).dedupe && Run(s, commands).dedupe[key] == s.dedupe[key]
    decreases commands
  {
    if commands != [] {
      RunKeepsReceipts(Step(s, commands[0]), commands[1..], key);
    }
  }

  /** An accepted command, repeated at any later point, returns its first outcome; its key under any
      other intent is refused. Neither changes the store. */
  lemma {:induction false} KeysAreIdempotent(s: Store, c: Command, between: seq<Command>, again: Command)
    requires Respond(s, c).Ok? && again.key == c.key
    ensures var later := Run(Step(s, c), between);
            && Step(later, again) == later
            && Respond(later, again) ==
               if Fingerprint(again) == Fingerprint(c) then Respond(s, c) else Err(IdempotencyConflict)
  {
    RunKeepsReceipts(Step(s, c), between, c.key);
  }

  /** `noisy` is `clean` with further commands inserted, each under a key delivered before it. */
  ghost predicate AddsRepeats(noisy: seq<Command>, clean: seq<Command>, delivered: set<Name>)
    decreases noisy
  {
    if noisy == [] then clean == []
    else
      || (noisy[0].key in delivered && AddsRepeats(noisy[1..], clean, delivered))
      || (clean != [] && noisy[0] == clean[0] && AddsRepeats(noisy[1..], clean[1..], delivered + {clean[0].key}))
  }

  /** `noisy` is `clean` with further commands inserted, each under a key that the store has recorded by
      then: the key of some command accepted before. */
  ghost predicate AddsRecorded(s: Store, noisy: seq<Command>, clean: seq<Command>)
    decreases noisy
  {
    if noisy == [] then clean == []
    else
      || (noisy[0].key in s.dedupe && AddsRecorded(s, noisy[1..], clean))
      || (clean != [] && noisy[0] == clean[0] && AddsRecorded(Step(s, clean[0]), noisy[1..], clean[1..]))
  }

  /** Repeats of accepted keys, inserted at any later positions and even under conflicting intents, leave
      no trace, whatever else is accepted or rejected on the way. */
  lemma {:induction false} RepeatsLeaveNoTrace(s: Store, noisy: seq<Command>, clean: seq<Command>)
    requires AddsRecorded(s, noisy, clean)
    ensures Run(s, noisy) == Run(s, clean)
    decreases noisy
  {
    if noisy != [] {
      if noisy[0].key in s.dedupe && AddsRecorded(s, noisy[1..], clean) {
        RepeatsLeaveNoTrace(s, noisy[1..], clean);
      } else {
        RepeatsLeaveNoTrace(Step(s, clean[0]), noisy[1..], clean[1..]);
      }
    }
  }

  /** On a trace whose commands are all accepted, a key delivered before is a key recorded before. */
  lemma {:induction false} DeliveredIsRecorded(s: Store, noisy: seq<Command>, clean: seq<Command>,
                                               delivered: set<Name>)
    requires AllAccepted(s, clean) && delivered <= s.dedupe.Keys && AddsRepeats(noisy, clean, delivered)
    ensures AddsRecorded(s, noisy, clean)
    decreases noisy
  {
    if noisy != [] {
      if noisy[0].key in delivered && AddsRepeats(noisy[1..], clean, delivered) {
        DeliveredIsRecorded(s, noisy[1..], clean, delivered);
      } else {
        DeliveredIsRecorded(Step(s, clean[0]), noisy[1..], clean[1..], delivered + {clean[0].key});
      }
    }
  }

  /** Delivery alone is not enough: a rejected command is not recorded, so its repeat may be accepted. */
  lemma {:induction false} RejectedRepeatMayTakeEffect(entity: Name, value: Value, first: Name, second: Name)
    requires first != second
    ensures var update := Command(Update, entity, Some(value), first);
            var create := Command(Create, entity, Some(value), second);
            && Respond(EMPTY, update).Err?
            && AddsRepeats([update, create, update], [update, create], {})
            && Run(EMPTY, [update, create, update]) != Run(EMPTY, [update, create])
  {
    var update := Command(Update, entity, Some(value), first);
    var create := Command(Create, entity, Some(value), second);
    var one := Perform(EMPTY, create);
    assert Step(EMPTY, update) == EMPTY && Step(EMPTY, create) == one;
    assert [update, create, update][1..] == [create, update] && [create, update][1..] == [update];
    assert [update, create][1..] == [create] && [create][1..] == [] && [update][1..] == [];
    assert AddsRepeats([], [], {first, second});
    assert AddsRepeats([update], [], {first, second});
    assert {} + {first} + {second} == {first, second};
    assert {} + {first} == {first};
    assert AddsRepeats([create, update], [create], {first});
    calc {
      Run(EMPTY, [update, create, update]);
      Run(EMPTY, [create, update]);
      Run(one, [update]);
      Run(Step(one, update), []);
      Step(one, update);
    }
    calc {
      Run(EMPTY, [update, create]);
      Run(EMPTY, [create]);
      Run(one, []);
      one;
    }
    assert Step(one, update).revision == 2;
  }

  /** Some command of the run is accepted under `key`. */
  ghost predicate AcceptsKey(s: Store, commands: seq<Command>, key: Name)
    decreases commands
  {
    commands != [] &&
    ((Respond(s, commands[0]).Ok? && commands[0].key == key) || AcceptsKey(Step(s, commands[0]), commands[1..], key))
  }

  lemma {:induction false} RecordedIffAccepted(s: Store, commands: seq<Command>, key: Name)
    ensures key in Run(s, commands).dedupe <==> key in s.dedupe || AcceptsKey(s, commands, key)
    decreases commands
  {
    if commands != [] {
      RecordedIffAccepted(Step(s, commands[0]), commands[1..], key);
    }
  }

  /** The exact condition on any run: a delivered command, delivered again, takes effect if and only if its
      key was unused and it was refused the first time, nothing was accepted under its key in between, and
      the store does not refuse it now. */
  lemma {:induction false} RepeatTakesEffectIff(s: Store, c: Command, between: seq<Command>)
    ensures var later := Run(Step(s, c), between);
            Step(later, c) != later
            <==> && c.key !in s.dedupe && Respond(s, c).Err?
                 && !AcceptsKey(Step(s, c), between, c.key) && Refusal(later, c).None?
  {
    RecordedIffAccepted(Step(s, c), between, c.key);
    RejectedChangesNothing(Run(Step(s, c), between), c);
  }

  // ------------------------------------------------------ refinement of a map

  function PlainRun(values: map<Name, Value>, commands: seq<Command>): map<Name, Value>
    decreases commands
  {
    if commands == [] then values else PlainRun(Plain(values, commands[0]), commands[1..])
  }

  /** The commands of a run that were accepted for the first time. */
  ghost function Effective(s: Store, commands: seq<Command>): seq<Command>
    decreases commands
  {
    if commands == [] then []
    else
      (if Respond(s, commands[0]).Ok? && commands[0].key !in s.dedupe then [commands[0]] else [])
      + Effective(Step(s, commands[0]), commands[1..])
  }

  /** Any run at all, with repeats, conflicts and rejections, behaves like a plain map that is given
      the effective commands once each. */
  lemma {:induction false} RefinesPlainMap(s: Store, commands: seq<Command>)
    ensures Run(s, commands).values == PlainRun(s.values, Effective(s, commands))
    ensures Run(s, commands).revision == s.revision + |Effective(s, commands)|
    ensures Run(s, commands) == Run(s, Effective(s, commands)) && AllFresh(s, Effective(s, commands))
    decreases commands
  {
    if commands != [] {
      var c := commands[0];
      RefinesPlainMap(Step(s, c), commands[1..]);
      var rest := Effective(Step(s, c), commands[1..]);
      if Respond(s, c).Ok? && c.key !in s.dedupe {
        assert Effective(s, commands)[1..] == rest;
      } else {
        assert Effective(s, commands) == rest;
      }
    }
  }

  // ------------------------------------------------- what the history tells

  function About(entity: Name): Command -> bool {
    (c: Command) => c.entity == entity
  }

  /** An entity lives with the value of the last effective command about it, unless that is a deletion. */
  ghost predicate TellsEntity(effective: seq<Command>, s: Store, entity: Name) {
    match Last(effective, About(entity))
    case None => entity !in s.values && entity !in s.tombstones
    case Some(c) =>
      if c.kind == Delete then entity !in s.values && entity in s.tombstones
      else entity in s.values && Some(s.values[entity]) == c.value && entity !in s.tombstones
  }

  /** Each effective command has its entry in the history, numbered in order, and its receipt under its key. */
  ghost predicate TellsEntry(effective: seq<Command>, s: Store, i: nat)
    requires i < |effective| == |s.history|
  {
    var c := effective[i];
    && s.history[i] == Outcome(i + 1, c.entity, if c.kind == Delete then None else c.value, c.kind == Delete)
    && c.key in s.dedupe && s.dedupe[c.key] == Receipt(Fingerprint(c), s.history[i])
  }

  ghost predicate UsesKey(effective: seq<Command>, key: Name) {
    exists i :: 0 <= i < |effective| && effective[i].key == key
  }

  /** The effective commands so far tell the whole store. */
  ghost predicate Tells(effective: seq<Command>, s: Store) {
    && s.revision == |s.history| == |effective|
    && (forall i :: 0 <= i < |effective| ==> TellsEntry(effective, s, i))
    && (forall key :: key in s.dedupe <==> UsesKey(effective, key))
    && (forall entity :: TellsEntity(effective, s, entity))
  }

  lemma {:induction false} PerformTellsEntities(effective: seq<Command>, s: Store, c: Command)
    requires Tells(effective, s) && Respond(s, c).Ok? && c.key !in s.dedupe
    ensures forall entity :: TellsEntity(effective + [c], Perform(s, c), entity)
  {
    forall entity ensures TellsEntity(effective + [c], Perform(s, c), entity) {
      assert TellsEntity(effective, s, entity) && TellsEntity(effective, s, c.entity);
      LastOfMore(effective, c, About(entity));
    }
  }

  lemma {:induction false} PerformTells(effective: seq<Command>, s: Store, c: Command)
    requires Tells(effective, s) && Respond(s, c).Ok? && c.key !in s.dedupe
    ensures Tells(effective + [c], Perform(s, c))
  {
    hide TellsEntity;
    var t, more := Perform(s, c), effective + [c];
    PerformTellsEntities(effective, s, c);
    forall i | 0 <= i < |more| ensures TellsEntry(more, t, i) {
      assert i < |effective| ==> TellsEntry(effective, s, i) && UsesKey(effective, effective[i].key);
    }
    forall key ensures key in t.dedupe <==> UsesKey(more, key) {
      assert more[|effective|] == c;
      if UsesKey(effective, key) {
        var i :| 0 <= i < |effective| && effective[i].key == key;
        assert more[i].key == key;
      }
    }
  }

  lemma {:induction false} RunTells(effective: seq<Command>, s: Store, commands: seq<Command>)
    requires Tells(effective, s)
    ensures Tells(effective + Effective(s, commands), Run(s, commands))
    decreases commands
  {
    hide Tells, Respond, Perform;
    if commands == [] {
      assert effective + [] == effective;
    } else {
      var c, rest := commands[0], commands[1..];
      var next := Step(s, c);
      RejectedChangesNothing(s, c);
      if Respond(s, c).Ok? && c.key !in s.dedupe {
        PerformTells(effective, s, c);
        RunTells(effective + [c], next, rest);
        assert effective + ([c] + Effective(next, rest)) == effective + [c] + Effective(next, rest);
      } else {
        RunTells(effective, next, rest);
        assert effective + ([] + Effective(next, rest)) == effective + Effective(next, rest);
      }
    }
  }

  /** Over every run from the empty store the effective commands tell the whole store. */
  lemma {:induction false} HistoryTells(commands: seq<Command>)
    ensures Tells(Effective(EMPTY, commands), Run(EMPTY, commands))
  {
    RunTells([], EMPTY, commands);
    assert [] + Effective(EMPTY, commands) == Effective(EMPTY, commands);
  }

  /** An entity was written and not deleted since. */
  predicate Live(history: seq<Outcome>, entity: Name) {
    Latest(history, entity).Some? && !Latest(history, entity).value.deleted
  }

  /** Acceptance through history, on every run from the empty store: under a key not used before, a create is
      accepted if and only if the last history entry of its entity is missing or a deletion, an update or a
      delete if and only if it exists and is none; creates and updates need a value. The accepted command gets
      the next revision. */
  lemma {:induction false} AcceptedByHistory(commands: seq<Command>, c: Command)
    requires c.key !in Run(EMPTY, commands).dedupe
    ensures var s := Run(EMPTY, commands);
            && (Respond(s, c).Ok? <==>
                match c.kind
                case Create => c.value.Some? && !Live(s.history, c.entity)
                case Update => c.value.Some? && Live(s.history, c.entity)
                case Delete => Live(s.history, c.entity)
                case Unknown(_) => false)
            && (Respond(s, c).Err? ==>
                  Respond(s, c).error == match c.kind
                    case Create => CreateRejected
                    case Update => UpdateRejected
                    case Delete => DeleteRejected
                    case Unknown(_) => UnknownKind)
            && (Respond(s, c).Ok? ==>
                  Respond(s, c).value == Outcome(|s.history| + 1, c.entity, if c.kind == Delete then None else c.value,
                                                 c.kind == Delete))
  {
    ReachableIsConsistent(commands);
    assert Reflects(Run(EMPTY, commands), c.entity);
  }

  predicate SameIntent(c: Command, d: Command) {
    c.kind == d.kind && c.entity == d.entity && c.value == d.value
  }

  /** And under a key used before, every run answers with the entry of the command that used it, or refuses
      another intent. */
  lemma {:induction false} AnsweredByHistory(commands: seq<Command>, i: nat, c: Command)
    requires i < |Effective(EMPTY, commands)| && c.key == Effective(EMPTY, commands)[i].key
    ensures var s := Run(EMPTY, commands);
            && i < |s.history|
            && Respond(s, c) == if SameIntent(c, Effective(EMPTY, commands)[i]) then Ok(s.history[i])
                                else Err(IdempotencyConflict)
  {
    HistoryTells(commands);
    assert TellsEntry(Effective(EMPTY, commands), Run(EMPTY, commands), i);
  }

  // ------------------------------------------------------ traces with one effect

  /** A key first recorded during a run carries a revision of that run. */
  lemma {:induction false} NewKeysCarryNewRevisions(s: Store, commands: seq<Command>, key: Name)
    requires key !in s.dedupe && key in Run(s, commands).dedupe
    ensures Run(s, commands).dedupe[key].outcome.revision > s.revision
    decreases commands
  {
    var next := Step(s, commands[0]);
    if key in next.dedupe {
      RunKeepsReceipts(next, commands[1..], key);
    } else {
      NewKeysCarryNewRevisions(next, commands[1..], key);
    }
  }

  lemma {:induction false} FreshRunCounts(s: Store, commands: seq<Command>)
    requires AllFresh(s, commands)
    ensures Run(s, commands).revision == s.revision + |commands|
    decreases commands
  {
    if commands != [] {
      FreshRunCounts(Step(s, commands[0]), commands[1..]);
    }
  }

  /** The final store tells which fresh command came first. */
  lemma {:induction false} SameFirst(s: Store, a: seq<Command>, b: seq<Command>)
    requires AllFresh(s, a) && AllFresh(s, b) && a != [] && b != [] && Run(s, a) == Run(s, b)
    ensures a[0] == b[0]
  {
    var one, other := Step(s, a[0]), Step(s, b[0]);
    RunKeepsReceipts(one, a[1..], a[0].key);
    if a[0].key in other.dedupe {
      RunKeepsReceipts(other, b[1..], a[0].key);
    } else {
      NewKeysCarryNewRevisions(other, b[1..], a[0].key);
    }
  }

  lemma {:induction false} FreshRunsAreInjective(s: Store, a: seq<Command>, b: seq<Command>)
    requires AllFresh(s, a) && AllFresh(s, b) && Run(s, a) == Run(s, b)
    ensures a == b
    decreases a
  {
    FreshRunCounts(s, a);
    FreshRunCounts(s, b);
    if a != [] {
      SameFirst(s, a, b);
      FreshRunsAreInjective(Step(s, a[0]), a[1..], b[1..]);
      assert a == [a[0]] + a[1..] && b == [b[0]] + b[1..];
    }
  }

  /** The exact condition over whole traces: two traces, with whatever repeats, conflicts and rejections,
      leave the same store if and only if they have the same effective commands. */
  lemma {:induction false} SameStoreIffSameEffect(s: Store, a: seq<Command>, b: seq<Command>)
    ensures Run(s, a) == Run(s, b) <==> Effective(s, a) == Effective(s, b)
  {
    RefinesPlainMap(s, a);
    RefinesPlainMap(s, b);
    if Run(s, a) == Run(s, b) {
      FreshRunsAreInjective(s, Effective(s, a), Effective(s, b));
    }
  }

  lemma {:induction false} FreshIsEffective(s: Store, commands: seq<Command>)
    requires AllFresh(s, commands)
    ensures Effective(s, commands) == commands && AllAccepted(s, commands)
    decreases commands
  {
    if commands != [] {
      FreshIsEffective(Step(s, commands[0]), commands[1..]);
    }
  }

  /** A valid trace with repeats inserted at any later positions is a plain map run on the clean trace. */
  lemma {:induction false} NoisyTraceRefinesPlainMap(noisy: seq<Command>, clean: seq<Command>)
    requires AllFresh(EMPTY, clean) && AddsRepeats(noisy, clean, {})
    ensures Run(EMPTY, noisy) == Run(EMPTY, clean)
    ensures Run(EMPTY, noisy).values == PlainRun(map[], clean)
    ensures Run(EMPTY, noisy).revision == |clean|
  {
    FreshIsEffective(EMPTY, clean);
    DeliveredIsRecorded(EMPTY, noisy, clean, {});
    RepeatsLeaveNoTrace(EMPTY, noisy, clean);
    RefinesPlainMap(EMPTY, clean);
  }

  // ------------------------------------------------------------ valid traces

  lemma {:induction false} FreshMore(s: Store, commands: seq<Command>, c: Command)
    requires AllFresh(s, commands)
    requires Respond(Run(s, commands), c).Ok? && c.key !in Run(s, commands).dedupe
    ensures AllFresh(s, commands + [c]) && Run(s, commands + [c]) == Step(Run(s, commands), c)
    decreases commands
  {
    if commands == [] {
      assert (commands + [c])[1..] == [];
    } else {
      assert (commands + [c])[1..] == commands[1..] + [c];
      FreshMore(Step(s, commands[0]), commands[1..], c);
    }
  }

  ghost predicate IssuedBelow(name: Name, prefix: string, seed: int, bound: int) {
    name.Numbered? && name.prefix == prefix && name.seed == seed && 0 <= name.number < bound
  }

  /** Names handed out so far: step keys below `index`, entity numbers below `nextId`. */
  ghost predicate NamesBelow(s: Store, seed: int, index: int, nextId: int) {
    && (forall k :: k in s.dedupe ==> IssuedBelow(k, "step", seed, index))
    && (forall e :: e in s.values ==> IssuedBelow(e, "entity", seed, nextId))
  }

  lemma {:induction false} IssuedCommandIsFresh(s: Store, c: Command, seed: int, index: nat, nextId: nat)
    requires NamesBelow(s, seed, index, nextId)
    requires c.key == Numbered("step", seed, index)
    requires match c.kind
             case Create => c.value.Some? && c.entity == Numbered("entity", seed, nextId)
             case Update => c.value.Some? && c.entity in s.values
             case Delete => c.entity in s.values
             case Unknown(_) => false
    ensures Respond(s, c).Ok? && c.key !in s.dedupe
    ensures NamesBelow(Step(s, c), seed, index + 1, if c.kind == Create then nextId + 1 else nextId)
    ensures Step(s, c).values.Keys ==
            if c.kind == Delete then s.values.Keys - {c.entity} else s.values.Keys + {c.entity}
  {
  }

  /** The kind drawn for the next command: a create while nothing lives, and otherwise by the draw. */
  ghost predicate KindDrawn(kind: Kind, live: set<Name>, decision: real) {
    match kind
    case Create => live == {} || decision < 0.36
    case Update => live != {} && 0.36 <= decision < 0.79
    case Delete => live != {} && 0.79 <= decision
    case Unknown(_) => false
  }

  predicate IsCreate(c: Command) {
    c.kind == Create
  }

  ghost predicate Drawn(commands: seq<Command>, decisions: seq<real>, seed: int, i: nat)
    requires i < |commands| <= |decisions|
  {
    && KindDrawn(commands[i].kind, Run(EMPTY, commands[..i]).values.Keys, decisions[i])
    && commands[i].key == Numbered("step", seed, i)
    && (IsCreate(commands[i]) ==>
          commands[i].entity == Numbered("entity", seed, Count(commands[..i], IsCreate)))
  }

  lemma {:induction false} DrawnMore(commands: seq<Command>, decisions: seq<real>, seed: int, c: Command)
    requires |commands| < |decisions| && forall i :: 0 <= i < |commands| ==> Drawn(commands, decisions, seed, i)
    requires KindDrawn(c.kind, Run(EMPTY, commands).values.Keys, decisions[|commands|])
    requires c.key == Numbered("step", seed, |commands|)
    requires IsCreate(c) ==> c.entity == Numbered("entity", seed, Count(commands, IsCreate))
    ensures forall i :: 0 <= i <= |commands| ==> Drawn(commands + [c], decisions, seed, i)
    ensures Count(commands + [c], IsCreate) == Count(commands, IsCreate) + if c.kind == Create then 1 else 0
  {
    var more := commands + [c];
    CountMore(commands, c, IsCreate);
    forall i | 0 <= i <= |commands| ensures Drawn(more, decisions, seed, i) {
      assert more[..i] == commands[..i];
      assert i < |commands| ==> Drawn(commands, decisions, seed, i);
      assert commands[..|commands|] == commands;
    }
  }

  /** Whatever the random choices: every command of the generated trace is accepted by an empty store
      under a fresh key; kinds are the ones drawn, and created entities are numbered in order. */
  method GenerateValidTrace(seed: int, steps: int, decisions: seq<real>) returns (commands: seq<Command>)
    requires |decisions| >= steps
    ensures |commands| == if steps < 0 then 0 else steps
    ensures AllFresh(EMPTY, commands)
    ensures forall i :: 0 <= i < |commands| ==> Drawn(commands, decisions, seed, i)
  {
    var live: set<Name> := {};
    var nextId := 0;
    commands := [];
    assert AllFresh(EMPTY, commands) && Run(EMPTY, commands) == EMPTY;
    while |commands| < steps
      invariant 0 <= |commands| <= if steps < 0 then 0 else steps
      invariant 0 <= nextId
      invariant AllFresh(EMPTY, commands)
      invariant Run(EMPTY, commands).values.Keys == live
      invariant NamesBelow(Run(EMPTY, commands), seed, |commands|, nextId)
      invariant forall i :: 0 <= i < |commands| ==> Drawn(commands, decisions, seed, i)
      invariant nextId == Count(commands, IsCreate)
    {
      hide Run, AllFresh, NamesBelow, Step, Respond, Drawn, Count;
      ghost var store := Run(EMPTY, commands);
      ghost var firstFree := nextId;
      var entity, kind, value;
      var decision := decisions[|commands|];
      var number: nat := *;
      if live == {} || decision < 0.36 {
        entity := Numbered("entity", seed, nextId);
        nextId := nextId + 1;
        live := live + {entity};
        kind := Create;
        value := Some(Random(number));
      } else if decision < 0.79 {
        entity :| entity in live;
        kind := Update;
        value := Some(Random(number));
      } else {
        entity :| entity in live;
        live := live - {entity};
        kind := Delete;
        value := None;
      }
      var command := Command(kind, entity, value, Numbered("step", seed, |commands|));
      IssuedCommandIsFresh(store, command, seed, |commands|, firstFree);
      FreshMore(EMPTY, commands, command);
      DrawnMore(commands, decisions, seed, command);
      commands := commands + [command];
    }
  }

  // ------------------------------------------------------------------ replay

  /** The deliveries of a replay: every `duplicateEvery`-th command comes twice. */
  function WithRepeats(commands: seq<Command>, duplicateEvery: int): seq<Command> {
    if commands == [] then []
    else
      var last := |commands| - 1;
      WithRepeats(commands[..last], duplicateEvery)
      + (if duplicateEvery != 0 && last % duplicateEvery == 0 then [commands[last], commands[last]]
         else [commands[last]])
  }

  /** Replays `commands`, delivering every `duplicateEvery`-th one twice. It succeeds exactly when a
      run without duplicates would, with the same store. */
  method Replay(commands: seq<Command>, duplicateEvery: int) returns (store: ReferenceStore, error: Option<Rejection>)
    ensures fresh(store)
    ensures error.None? <==> AllAccepted(EMPTY, commands)
    ensures error.None? ==>
              store.Contents() == Run(EMPTY, commands) && store.deliveries == WithRepeats(commands, duplicateEvery)
  {
    store := new ReferenceStore();
    for index := 0 to |commands|
      invariant fresh(store)
      invariant AllAccepted(EMPTY, commands) <==> AllAccepted(store.Contents(), commands[index..])
      invariant Run(EMPTY, commands) == Run(store.Contents(), commands[index..])
      invariant store.deliveries == WithRepeats(commands[..index], duplicateEvery)
    {
      assert commands[..index + 1][..index] == commands[..index];
      assert commands[index..][0] == commands[index] && commands[index..][1..] == commands[index + 1..];
      var response := store.Apply(commands[index]);
      match response {
        case Err(rejection) => return store, Some(rejection);
        case Ok(_) =>
      }
      if duplicateEvery != 0 && index % duplicateEvery == 0 {
        var again := store.Apply(commands[index]);
        assert again == response;
      }
    }
    assert commands[..|commands|] == commands;
    error := None;
  }
}
