/** Bounded, validated, create-once publication of a staged object under racing publishers.

    A publisher is a program of storage calls, and its position in it a `Pc`. `Turn` is what one call
    does to the store and to that position; the method `Publish` is proved to take such turns and no
    other, and ObjectPublicationRuns interleaves the turns of any number of publishers. */
module ObjectPublication {
  import opened Common

  type Key = string
  type Bytes = seq<int>

  datatype Object = Object(bytes: Bytes, contentType: string, metadata: map<string, string>)

  datatype Verdict = Verdict(contentType: string, detail: int)

  /** Domain validation: None when it refuses. Pure, and a function of what is read. */
  type Validator = Object -> Option<Verdict>

  const CHUNK: nat := 64 * 1024
  const ATTEMPTS: nat := 3

  // ---- Reading one object --------------------------------------------------------------------

  /** An object body as it is streamed: every read yields some of the rest, or fails. */
  class Body {
    const data: Bytes
    var pos: nat

    ghost predicate Valid() reads this { pos <= |data| }

    constructor (data: Bytes)
      ensures Valid() && pos == 0 && this.data == data
    {
      this.data, pos := data, 0;
    }

    method Read(limit: nat, size: nat, fails: bool) returns (chunk: Option<Bytes>)
      requires Valid() && 0 < limit
      modifies this
      ensures Valid()
      ensures chunk.None? <==> fails
      ensures chunk.None? ==> pos == old(pos)
      ensures chunk.Some? ==> pos == old(pos) + |chunk.value| && chunk.value == data[old(pos)..pos] && |chunk.value| <= limit
      ensures chunk.Some? ==> (chunk.value == [] <==> old(pos) == |data|)
    {
      if fails {
        return None;
      }
      var most := if limit < |data| - pos then limit else |data| - pos;
      var n := if 0 < size <= most then size else most;
      chunk := Some(data[pos..pos + n]);
      pos := pos + n;
    }
  }

  datatype ReadOutcome = Read(bytes: Bytes) | BadSize(size: nat) | Broken

  /** Read one stream to its end, or refuse: never more than one byte past the limit. */
  method Drain(body: Body, maxBytes: nat, sizes: nat -> nat, fails: nat -> bool) returns (outcome: ReadOutcome)
    requires body.Valid() && body.pos == 0
    modifies body
    ensures body.Valid() && body.pos <= maxBytes + 1
    ensures outcome.Read? ==> outcome.bytes == body.data && 1 <= |body.data| <= maxBytes
    ensures outcome.BadSize? ==> |body.data| == 0 || |body.data| > maxBytes
    ensures outcome.BadSize? ==> outcome.size == if body.data == [] then 0 else maxBytes + 1
    ensures (forall n :: !fails(n)) ==> !outcome.Broken?
  {
    var size, spool: Bytes, calls := 0, [], 0;
    while size <= maxBytes
      invariant body.Valid() && body.pos == size == |spool| <= maxBytes + 1
      invariant spool == body.data[..size]
      decreases maxBytes + 1 - size
    {
      var rest := maxBytes + 1 - size;
      var chunk := body.Read(if CHUNK < rest then CHUNK else rest, sizes(calls), fails(calls));
      calls := calls + 1;
      if chunk.None? {
        return Broken;
      }
      if chunk.value == [] {
        break;
      }
      spool := spool + chunk.value;
      size := size + |chunk.value|;
    }
    if size < 1 || size > maxBytes {
      return BadSize(size);
    }
    assert body.data[..size] == body.data;
    return Read(spool);
  }

  // ---- The store -------------------------------------------------------------------------------

  /** `log` holds every object ever written at the final key, in order. */
  datatype State = State(objects: map<Key, Object>, log: seq<Object>)

  /** One publication: where it goes, how large it may be, and who decides. */
  datatype Target = Target(final: Key, maxBytes: nat, validator: Validator)

  /** Bytes the validator accepted before they were written, of an allowed size. */
  ghost predicate Vetted(o: Object, t: Target) {
    && 1 <= |o.bytes| <= t.maxBytes
    && exists source: Object ::
         && source.bytes == o.bytes && source.metadata == o.metadata
         && t.validator(source).Some? && t.validator(source).value.contentType == o.contentType
  }

  /** One storage action of anybody: other keys freely, the final key only from absent to vetted. */
  ghost predicate Action(a: State, b: State, t: Target) {
    || (b.log == a.log && (t.final in b.objects <==> t.final in a.objects)
        && (t.final in a.objects ==> b.objects[t.final] == a.objects[t.final]))
    || (t.final !in a.objects && t.final in b.objects && b.log == a.log + [b.objects[t.final]]
        && Vetted(b.objects[t.final], t))
  }

  /** What an object reads as: content types are normalised on the way in. */
  function Seen(o: Object): Object {
    o.(contentType := Strip(Lower(o.contentType)))
  }

  datatype Snapshot = Missing | Taken(item: Object) | TooBigOrEmpty | Unavailable

  /** The readings of a key the store's state allows. */
  predicate Readable(s: State, key: Key, maxBytes: nat, snapshot: Snapshot) {
    match snapshot
    case Missing => key !in s.objects
    case Taken(item) => key in s.objects && item == Seen(s.objects[key]) && 1 <= |s.objects[key].bytes| <= maxBytes
    case TooBigOrEmpty => key in s.objects && !(1 <= |s.objects[key].bytes| <= maxBytes)
    case Unavailable => true
  }

  datatype Put = Created | Conflict | Precondition | Failed

  /** The answers to a put conditional on absence; a failed one may hide a write that happened. */
  predicate Puttable(s: State, key: Key, put: Put, written: bool) {
    && (written ==> key !in s.objects && (put.Created? || put.Failed?))
    && (put.Created? ==> written)
    && (put.Precondition? ==> key in s.objects)
  }

  function AfterPut(s: State, key: Key, o: Object, written: bool): State {
    if written then State(s.objects[key := o], s.log + [o]) else s
  }

  datatype Outcome = Published(verdict: Verdict) | NotStaged | InvalidSize | Refused | StorageUnavailable

  function Judged(snapshot: Snapshot, validator: Validator): Outcome {
    match snapshot
    case Missing => NotStaged
    case Unavailable => StorageUnavailable
    case TooBigOrEmpty => InvalidSize
    case Taken(item) => if validator(item).Some? then Published(validator(item).value) else Refused
  }

  // ---- The program of one publisher ------------------------------------------------------------

  /** Before the first look; the final key was absent; the vetted object and the puts so far; after
      a put that did not fail; done. */
  datatype Pc = Idle | Cleared | Staged(item: Object, puts: nat) | Sent(item: Object, puts: nat, put: Put) | Done(outcome: Outcome)

  /** What the store answers to a publisher's next call. */
  datatype Answer = Seeing(snapshot: Snapshot) | Putting(put: Put, written: bool)

  predicate Offered(s: State, pc: Pc, t: Target, staging: Key, answer: Answer) {
    match pc
    case Idle => answer.Seeing? && Readable(s, t.final, t.maxBytes, answer.snapshot)
    case Cleared => answer.Seeing? && Readable(s, staging, t.maxBytes, answer.snapshot)
    case Staged(_, _) => answer.Putting? && Puttable(s, t.final, answer.put, answer.written)
    case Sent(_, _, _) => answer.Seeing? && Readable(s, t.final, t.maxBytes, answer.snapshot)
    case Done(_) => false
  }

  function AfterStaging(snapshot: Snapshot, validator: Validator): Pc {
    match Judged(snapshot, validator)
    case Published(verdict) => Staged(snapshot.item.(contentType := verdict.contentType), 0)
    case outcome => Done(outcome)
  }

  function AfterLooking(snapshot: Snapshot, validator: Validator, item: Object, puts: nat, put: Put): Pc {
    var winner := Judged(snapshot, validator);
    if !winner.NotStaged? then Done(winner)
    else if put.Conflict? && puts < ATTEMPTS then Staged(item, puts)
    else Done(StorageUnavailable)
  }

  function NextState(s: State, pc: Pc, t: Target, answer: Answer): State {
    if pc.Staged? && answer.Putting? then AfterPut(s, t.final, pc.item, answer.written) else s
  }

  function NextPc(pc: Pc, t: Target, answer: Answer): Pc {
    match pc
    case Idle =>
      if answer.Putting? then pc
      else if Judged(answer.snapshot, t.validator).NotStaged? then Cleared else Done(Judged(answer.snapshot, t.validator))
    case Cleared => if answer.Putting? then pc else AfterStaging(answer.snapshot, t.validator)
    case Staged(item, puts) =>
      if answer.Seeing? then pc
      else if answer.put.Failed? then Done(StorageUnavailable) else Sent(item, puts + 1, answer.put)
    case Sent(item, puts, put) =>
      if answer.Putting? then pc else AfterLooking(answer.snapshot, t.validator, item, puts, put)
    case Done(_) => pc
  }

  /** What a publisher holds at any point: only vetted bytes, and no more puts than attempts. */
  ghost predicate PcInv(pc: Pc, t: Target) {
    match pc
    case Staged(item, puts) => Vetted(item, t) && puts < ATTEMPTS
    case Sent(item, puts, _) => Vetted(item, t) && 0 < puts <= ATTEMPTS
    case _ => true
  }

  /** Every reported result is the validator's on the object that is there. */
  ghost predicate Reports(s: State, pc: Pc, t: Target) {
    pc.Done? && pc.outcome.Published? ==>
      && t.final in s.objects
      && t.validator(Seen(s.objects[t.final])) == Some(pc.outcome.verdict)
      && 1 <= |s.objects[t.final].bytes| <= t.maxBytes
  }

  /** A turn is one storage action, and leaves the publisher with vetted bytes only. */
  lemma TurnIsAction(s: State, pc: Pc, t: Target, staging: Key, answer: Answer)
    requires Offered(s, pc, t, staging, answer) && PcInv(pc, t)
    ensures Action(s, NextState(s, pc, t, answer), t)
    ensures PcInv(NextPc(pc, t, answer), t)
  {
    if pc.Cleared? && NextPc(pc, t, answer).Staged? {
      var source := answer.snapshot.item;
      var item := NextPc(pc, t, answer).item;
      assert source.bytes == item.bytes && source.metadata == item.metadata && t.validator(source).Some?
          && t.validator(source).value.contentType == item.contentType;
    }
  }

  // ---- The method ------------------------------------------------------------------------------

  /** One turn of the caller's: which state of the history it produced, from which position, on
      which answer. */
  datatype Move = Move(at: nat, pc: Pc, answer: Answer)

  ghost predicate Turned(m: Move, history: seq<State>, from: nat, t: Target, staging: Key) {
    && 0 < from <= m.at < |history| && Offered(history[m.at - 1], m.pc, t, staging, m.answer)
    && history[m.at] == NextState(history[m.at - 1], m.pc, t, m.answer)
  }

  /** The recorded turns are one publisher's program from its start to `pc`. */
  ghost predicate Program(moves: seq<Move>, history: seq<State>, from: nat, t: Target, staging: Key, pc: Pc) {
    && (forall k | 0 <= k < |moves| :: Turned(moves[k], history, from, t, staging))
    && (forall k | 0 < k < |moves| ::
          moves[k - 1].at < moves[k].at && moves[k].pc == NextPc(moves[k - 1].pc, t, moves[k - 1].answer))
    && (if moves == [] then pc.Idle?
        else moves[0].pc.Idle? && pc == NextPc(moves[|moves| - 1].pc, t, moves[|moves| - 1].answer))
  }

  /** Every step of the history from an index on is one storage action. */
  ghost predicate Actions(history: seq<State>, from: nat, t: Target) {
    0 < from && forall i | from <= i < |history| :: Action(history[i - 1], history[i], t)
  }

  /** A caller that has kept to its program, in a history of storage actions. */
  ghost predicate Conforms(moves: seq<Move>, history: seq<State>, from: nat, t: Target, staging: Key, pc: Pc) {
    from <= |history| && Program(moves, history, from, t, staging, pc) && Actions(history, from, t) && PcInv(pc, t)
  }

  lemma ActionsJoin(before: seq<State>, after: seq<State>, from: nat, t: Target)
    requires Actions(before, from, t) && before <= after && Actions(after, |before|, t)
    ensures Actions(after, from, t)
  {
    forall i | from <= i < |after| ensures Action(after[i - 1], after[i], t) {
      if i < |before| { assert Action(before[i - 1], before[i], t); }
    }
  }

  lemma ProgramStays(moves: seq<Move>, before: seq<State>, after: seq<State>, from: nat, t: Target, staging: Key, pc: Pc)
    requires Program(moves, before, from, t, staging, pc) && before <= after
    ensures Program(moves, after, from, t, staging, pc)
  {
    forall k | 0 <= k < |moves| ensures Turned(moves[k], after, from, t, staging) {
      assert Turned(moves[k], before, from, t, staging);
    }
  }

  lemma OthersTurn(moves: seq<Move>, before: seq<State>, after: seq<State>, from: nat, t: Target, staging: Key, pc: Pc)
    requires Conforms(moves, before, from, t, staging, pc) && before <= after && Actions(after, |before|, t)
    ensures Conforms(moves, after, from, t, staging, pc)
  {
    ActionsJoin(before, after, from, t);
    ProgramStays(moves, before, after, from, t, staging, pc);
  }

  lemma OwnTurn(moves: seq<Move>, before: seq<State>, after: seq<State>, from: nat, t: Target, staging: Key, pc: Pc, answer: Answer)
    requires Conforms(moves, before, from, t, staging, pc) && before != []
    requires Offered(before[|before| - 1], pc, t, staging, answer)
    requires after == before + [NextState(before[|before| - 1], pc, t, answer)]
    ensures Conforms(moves + [Move(|before|, pc, answer)], after, from, t, staging, NextPc(pc, t, answer))
  {
    var n := |before|;
    TurnIsAction(before[n - 1], pc, t, staging, answer);
    forall i | n <= i < |after| ensures Action(after[i - 1], after[i], t) { assert i == n; }
    ActionsJoin(before, after, from, t);
    ProgramStays(moves, before, after, from, t, staging, pc);
    if moves != [] { assert Turned(moves[|moves| - 1], before, from, t, staging); }
    MoveAppended(moves, after, from, t, staging, pc, Move(n, pc, answer));
  }

  lemma MoveAppended(moves: seq<Move>, history: seq<State>, from: nat, t: Target, staging: Key, pc: Pc, m: Move)
    requires Program(moves, history, from, t, staging, pc) && Turned(m, history, from, t, staging)
    requires m.pc == pc && m.at == |history| - 1
    requires moves != [] ==> moves[|moves| - 1].at < m.at
    ensures Program(moves + [m], history, from, t, staging, NextPc(pc, t, m.answer))
  {}

  /** What the weather does to one call: how much of a stream arrives, and what fails. */
  datatype Weather = Weather(readable: bool, sizes: nat -> nat, breaks: nat -> bool,
                             conflicted: bool, delivered: bool, acknowledged: bool)

  /** Nothing fails, and every reply arrives. */
  ghost predicate Calm(weather: Weather) {
    weather.readable && !weather.conflicted && weather.delivered && weather.acknowledged && forall n :: !weather.breaks(n)
  }

  /** An answer that says what is the case. */
  predicate Plain(answer: Answer) {
    if answer.Seeing? then !answer.snapshot.Unavailable? else answer.put.Created? || answer.put.Precondition?
  }

  ghost predicate AllPlain(moves: seq<Move>) {
    forall k | 0 <= k < |moves| :: Plain(moves[k].answer)
  }

  /** The bucket is the sequence of states it has been in, one for every storage call: a state once
      reached cannot be unmade, so no call can hide what it did. */
  class Bucket {
    var history: seq<State>

    ghost predicate Valid() reads this { history != [] }

    function Now(): State
      requires history != []
      reads this
    {
      history[|history| - 1]
    }

    constructor ()
      ensures Valid() && history == [State(map[], [])]
    {
      history := [State(map[], [])];
    }

    /** Anything the other publishers and uploaders may have done meanwhile; callers know only the
        contract, of which doing nothing is one instance. */
    method Interference(t: Target)
      requires Valid()
      modifies this
      ensures Valid() && old(history) <= history && Actions(history, |old(history)|, t)
    {}

    method TakeSnapshot(key: Key, maxBytes: nat, weather: Weather) returns (taken: Snapshot)
      requires Valid()
      modifies this
      ensures Valid() && history == old(history) + [old(Now())]
      ensures Readable(old(Now()), key, maxBytes, taken)
      ensures Calm(weather) ==> !taken.Unavailable?
    {
      var objects := Now().objects;
      history := history + [Now()];
      if !weather.readable {
        return Unavailable;
      }
      if key !in objects {
        return Missing;
      }
      var body := new Body(objects[key].bytes);
      var read := Drain(body, maxBytes, weather.sizes, weather.breaks);
      match read
      case Read(bytes) => return Taken(Seen(objects[key].(bytes := bytes)));
      case BadSize(_) => return TooBigOrEmpty;
      case Broken => return Unavailable;
    }

    /** A put conditional on absence; a lost reply may hide a write that happened. */
    method PutIfAbsent(key: Key, o: Object, weather: Weather) returns (put: Put, ghost written: bool)
      requires Valid()
      modifies this
      ensures Valid() && Puttable(old(Now()), key, put, written)
      ensures history == old(history) + [AfterPut(old(Now()), key, o, written)]
      ensures Calm(weather) ==> put.Created? || put.Precondition?
    {
      var now := Now();
      written := false;
      if weather.delivered && !weather.conflicted && key !in now.objects {
        history, written := history + [State(now.objects[key := o], now.log + [o])], true;
        return (if weather.acknowledged then Created else Failed), written;
      }
      history := history + [now];
      put := if !weather.delivered then Failed else if weather.conflicted then Conflict
             else if weather.acknowledged then Precondition else Failed;
    }

    method ValidateExisting(t: Target, weather: Weather) returns (found: Outcome, ghost snapshot: Snapshot)
      requires Valid()
      modifies this
      ensures Valid() && history == old(history) + [old(Now())]
      ensures Readable(old(Now()), t.final, t.maxBytes, snapshot) && found == Judged(snapshot, t.validator)
      ensures Calm(weather) ==> !snapshot.Unavailable?
    {
      var current := TakeSnapshot(t.final, t.maxBytes, weather);
      snapshot := current;
      match current
      case Missing => return NotStaged, snapshot;
      case Unavailable => return StorageUnavailable, snapshot;
      case TooBigOrEmpty => return InvalidSize, snapshot;
      case Taken(item) =>
        var verdict := t.validator(item);
        return (if verdict.Some? then Published(verdict.value) else Refused), snapshot;
    }

    /** Publish the staged object unless the final one exists; whoever wins, report the winner. The
        caller's own calls are exactly one run of the program, and every state the bucket has gone
        through meanwhile came by one storage action. */
    method Publish(t: Target, staging: Key, weather: nat -> Weather) returns (outcome: Outcome, ghost moves: seq<Move>)
      requires Valid()
      modifies this
      ensures Valid() && old(history) <= history && Actions(history, |old(history)|, t)
      ensures Program(moves, history, |old(history)|, t, staging, Done(outcome))
      ensures Reports(Now(), Done(outcome), t)
      ensures (forall i :: Calm(weather(i))) ==> AllPlain(moves)
    {
      ghost var from := |history|;
      ghost var pc := Idle;
      var current;
      current, moves, pc := Look(t, weather(0), [], from, staging, pc);
      if !current.NotStaged? {
        return current, moves;
      }
      var source;
      source, moves := Fetch(t, staging, weather(1), moves, from);
      if !source.Taken? {
        return (if source.Missing? then NotStaged else if source.Unavailable? then StorageUnavailable else InvalidSize), moves;
      }
      var result := t.validator(source.item);
      if result.None? {
        return Refused, moves;
      }
      var o := source.item.(contentType := result.value.contentType);
      outcome, moves := TryToPut(t, staging, o, weather, moves, from);
    }

    /** The retry loop: only a conflict with the final object still absent leads to another put. */
    method TryToPut(t: Target, ghost staging: Key, o: Object, weather: nat -> Weather, ghost earlier: seq<Move>, ghost from: nat)
      returns (outcome: Outcome, ghost moves: seq<Move>)
      requires Valid() && Conforms(earlier, history, from, t, staging, Staged(o, 0))
      modifies this
      ensures Valid() && old(history) <= history && Conforms(moves, history, from, t, staging, Done(outcome))
      ensures Reports(Now(), Done(outcome), t)
      ensures AllPlain(earlier) && (forall i :: Calm(weather(i))) ==> AllPlain(moves)
    {
      moves := earlier;
      ghost var pc := Staged(o, 0);
      var attempt := 0;
      while attempt < ATTEMPTS
        invariant Valid() && old(history) <= history && attempt <= ATTEMPTS
        invariant pc == if attempt < ATTEMPTS then Staged(o, attempt) else Done(StorageUnavailable)
        invariant Conforms(moves, history, from, t, staging, pc)
        invariant AllPlain(earlier) && (forall i :: Calm(weather(i))) ==> AllPlain(moves)
        decreases ATTEMPTS - attempt
      {
        var again;
        again, outcome, moves, pc := Attempt(t, o, weather(2 * attempt + 2), weather(2 * attempt + 3), moves, from, staging, pc);
        if !again {
          return outcome, moves;
        }
        attempt := attempt + 1;
      }
      return StorageUnavailable, moves;
    }

    /** Put once and look who won; after a conflict nobody won, there may be another attempt. */
    method Attempt(t: Target, o: Object, sending: Weather, looking: Weather, ghost earlier: seq<Move>, ghost from: nat,
                   ghost staging: Key, ghost pc: Pc)
      returns (again: bool, outcome: Outcome, ghost moves: seq<Move>, ghost pc': Pc)
      requires Valid() && Conforms(earlier, history, from, t, staging, pc) && pc.Staged? && pc.item == o
      modifies this
      ensures Valid() && old(history) <= history && Conforms(moves, history, from, t, staging, pc')
      ensures if again then pc' == if pc.puts + 1 < ATTEMPTS then Staged(o, pc.puts + 1) else Done(StorageUnavailable)
              else pc' == Done(outcome) && Reports(Now(), Done(outcome), t)
      ensures AllPlain(earlier) && Calm(sending) && Calm(looking) ==> AllPlain(moves)
    {
      var put, winner;
      put, moves, pc' := TryOnce(t, o, sending, earlier, from, staging, pc);
      if put.Failed? {
        return false, StorageUnavailable, moves, pc';
      }
      winner, moves, pc' := Look(t, looking, moves, from, staging, pc');
      if !winner.NotStaged? {
        return false, winner, moves, pc';
      }
      return put.Conflict?, StorageUnavailable, moves, pc';
    }

    /** Wait, then look at the final object: the first turn, and the one after a put. */
    method Look(t: Target, weather: Weather, ghost earlier: seq<Move>, ghost from: nat, ghost staging: Key, ghost pc: Pc)
      returns (found: Outcome, ghost moves: seq<Move>, ghost pc': Pc)
      requires Valid() && Conforms(earlier, history, from, t, staging, pc) && (pc.Idle? || pc.Sent?)
      modifies this
      ensures Valid() && old(history) <= history && Conforms(moves, history, from, t, staging, pc')
      ensures pc' == if !found.NotStaged? then Done(found) else if pc.Idle? then Cleared
                     else if pc.put.Conflict? && pc.puts < ATTEMPTS then Staged(pc.item, pc.puts) else Done(StorageUnavailable)
      ensures Reports(Now(), Done(found), t)
      ensures AllPlain(earlier) && Calm(weather) ==> AllPlain(moves)
    {
      ghost var before := history;
      Interference(t);
      OthersTurn(earlier, before, history, from, t, staging, pc);
      before := history;
      ghost var snapshot;
      found, snapshot := ValidateExisting(t, weather);
      OwnTurn(earlier, before, history, from, t, staging, pc, Seeing(snapshot));
      moves, pc' := earlier + [Move(|before|, pc, Seeing(snapshot))], NextPc(pc, t, Seeing(snapshot));
    }

    /** Wait, then read the staged object. */
    method Fetch(t: Target, staging: Key, weather: Weather, ghost earlier: seq<Move>, ghost from: nat)
      returns (source: Snapshot, ghost moves: seq<Move>)
      requires Valid() && Conforms(earlier, history, from, t, staging, Cleared)
      modifies this
      ensures Valid() && old(history) <= history
      ensures Conforms(moves, history, from, t, staging, AfterStaging(source, t.validator))
      ensures AllPlain(earlier) && Calm(weather) ==> AllPlain(moves)
    {
      ghost var before := history;
      Interference(t);
      OthersTurn(earlier, before, history, from, t, staging, Cleared);
      before := history;
      source := TakeSnapshot(staging, t.maxBytes, weather);
      OwnTurn(earlier, before, history, from, t, staging, Cleared, Seeing(source));
      moves := earlier + [Move(|before|, Cleared, Seeing(source))];
    }

    /** Wait, then put. */
    method TryOnce(t: Target, o: Object, weather: Weather, ghost earlier: seq<Move>, ghost from: nat, ghost staging: Key, ghost pc: Pc)
      returns (put: Put, ghost moves: seq<Move>, ghost pc': Pc)
      requires Valid() && Conforms(earlier, history, from, t, staging, pc) && pc.Staged? && pc.item == o
      modifies this
      ensures Valid() && old(history) <= history && Conforms(moves, history, from, t, staging, pc')
      ensures pc' == if put.Failed? then Done(StorageUnavailable) else Sent(o, pc.puts + 1, put)
      ensures AllPlain(earlier) && Calm(weather) ==> AllPlain(moves)
    {
      ghost var before := history;
      Interference(t);
      OthersTurn(earlier, before, history, from, t, staging, pc);
      before := history;
      ghost var written;
      put, written := PutIfAbsent(t.final, o, weather);
      OwnTurn(earlier, before, history, from, t, staging, pc, Putting(put, written));
      moves, pc' := earlier + [Move(|before|, pc, Putting(put, written))], NextPc(pc, t, Putting(put, written));
    }
  }

  /** Any number of actions write at the final key at most once, only if it was absent, and what they
      write is vetted and stays. */
  lemma {:induction false} WrittenAtMostOnce(history: seq<State>, t: Target)
    requires history != [] && Actions(history, 1, t)
    ensures var first, last := history[0], history[|history| - 1];
            && (t.final in first.objects ==> t.final in last.objects && last.objects[t.final] == first.objects[t.final])
            && (t.final in first.objects || t.final !in last.objects ==> last.log == first.log)
            && (t.final !in first.objects && t.final in last.objects ==>
                  last.log == first.log + [last.objects[t.final]] && Vetted(last.objects[t.final], t))
  {
    if |history| > 1 {
      var front := history[..|history| - 1];
      WrittenAtMostOnce(front, t);
      assert Action(history[|history| - 1 - 1], history[|history| - 1], t);
    }
  }
}

/** Any number of publishers of one final key, each at its own place in the program, among uploaders
    who change every other key. */
module ObjectPublicationRuns {
  import opened Common
  import opened ObjectPublication

  type Pid = nat

  datatype Publisher = Publisher(staging: Key, pc: Pc)

  datatype World = World(store: State, publishers: map<Pid, Publisher>)

  datatype Step =
    | Arrive(p: Pid, staging: Key)
    | Call(p: Pid, answer: Answer)
    | Upload(key: Key, content: Option<Object>)

  predicate Enabled(w: World, step: Step, t: Target) {
    match step
    case Arrive(p, _) => p !in w.publishers
    case Call(p, answer) =>
      p in w.publishers && Offered(w.store, w.publishers[p].pc, t, w.publishers[p].staging, answer)
    case Upload(key, _) => key != t.final
  }

  function Next(w: World, step: Step, t: Target): World
    requires Enabled(w, step, t)
  {
    match step
    case Arrive(p, staging) => w.(publishers := w.publishers[p := Publisher(staging, Idle)])
    case Call(p, answer) =>
      var me := w.publishers[p];
      World(NextState(w.store, me.pc, t, answer), w.publishers[p := me.(pc := NextPc(me.pc, t, answer))])
    case Upload(key, content) =>
      w.(store := w.store.(objects := if content.Some? then w.store.objects[key := content.value] else w.store.objects - {key}))
  }

  predicate Run(w: World, steps: seq<Step>, t: Target)
    decreases |steps|
  {
    steps == [] || (Enabled(w, steps[0], t) && Run(Next(w, steps[0], t), steps[1..], t))
  }

  function End(w: World, steps: seq<Step>, t: Target): World
    requires Run(w, steps, t)
    decreases |steps|
  {
    if steps == [] then w else End(Next(w, steps[0], t), steps[1..], t)
  }

  ghost predicate Inv(w: World, t: Target) {
    && (forall p | p in w.publishers :: PcInv(w.publishers[p].pc, t) && Reports(w.store, w.publishers[p].pc, t))
    && |w.store.log| <= 1
    && (w.store.log != [] ==> t.final in w.store.objects && w.store.objects[t.final] == w.store.log[0] && Vetted(w.store.log[0], t))
  }

  lemma CallReports(s: State, pc: Pc, t: Target, staging: Key, answer: Answer)
    requires Offered(s, pc, t, staging, answer)
    ensures Reports(NextState(s, pc, t, answer), NextPc(pc, t, answer), t)
  {}

  lemma StepIsAction(w: World, step: Step, t: Target)
    requires Inv(w, t) && Enabled(w, step, t)
    ensures Action(w.store, Next(w, step, t).store, t)
  {
    if step.Call? { TurnIsAction(w.store, w.publishers[step.p].pc, t, w.publishers[step.p].staging, step.answer); }
  }

  lemma StepKeeps(w: World, step: Step, t: Target)
    requires Inv(w, t) && Enabled(w, step, t)
    ensures Inv(Next(w, step, t), t)
  {
    StepIsAction(w, step, t);
    var w' := Next(w, step, t);
    forall p | p in w'.publishers ensures PcInv(w'.publishers[p].pc, t) && Reports(w'.store, w'.publishers[p].pc, t) {
      if step.Call? && p == step.p {
        TurnIsAction(w.store, w.publishers[p].pc, t, w.publishers[p].staging, step.answer);
        CallReports(w.store, w.publishers[p].pc, t, w.publishers[p].staging, step.answer);
      } else if p in w.publishers {
        assert Reports(w.store, w.publishers[p].pc, t);
      }
    }
  }

  lemma {:induction false} RunKeeps(w: World, steps: seq<Step>, t: Target)
    requires Inv(w, t) && Run(w, steps, t)
    ensures Inv(End(w, steps, t), t)
    ensures t.final in w.store.objects ==>
              t.final in End(w, steps, t).store.objects && End(w, steps, t).store.objects[t.final] == w.store.objects[t.final]
    decreases |steps|
  {
    if steps != [] {
      StepKeeps(w, steps[0], t);
      StepIsAction(w, steps[0], t);
      RunKeeps(Next(w, steps[0], t), steps[1..], t);
    }
  }

  /** Over every interleaving of any number of publishers, from any bucket: at most one object is
      ever written at the final key, none if one was there; it is vetted and it is the one that is
      there; and every result any publisher reports is the validator's on that one object. */
  lemma CreateOnce(objects: map<Key, Object>, steps: seq<Step>, t: Target, p: Pid)
    requires Run(World(State(objects, []), map[]), steps, t)
    ensures var end := End(World(State(objects, []), map[]), steps, t);
            && |end.store.log| <= 1
            && (t.final in objects ==> end.store.log == [] && t.final in end.store.objects && end.store.objects[t.final] == objects[t.final])
            && (end.store.log != [] ==>
                  t.final in end.store.objects && end.store.objects[t.final] == end.store.log[0] && Vetted(end.store.log[0], t))
            && (p in end.publishers ==> Reports(end.store, end.publishers[p].pc, t))
  {
    var start := World(State(objects, []), map[]);
    RunKeeps(start, steps, t);
    if t.final in objects { NothingWritten(start, steps, t); }
  }

  lemma {:induction false} NothingWritten(w: World, steps: seq<Step>, t: Target)
    requires Inv(w, t) && Run(w, steps, t) && t.final in w.store.objects
    ensures End(w, steps, t).store.log == w.store.log
    decreases |steps|
  {
    if steps != [] {
      StepKeeps(w, steps[0], t);
      StepIsAction(w, steps[0], t);
      NothingWritten(Next(w, steps[0], t), steps[1..], t);
    }
  }

  /** A result once reported stays true, whatever the others do afterwards. */
  lemma ReportsLast(objects: map<Key, Object>, before: seq<Step>, after: seq<Step>, t: Target, p: Pid, q: Pid)
    requires Run(World(State(objects, []), map[]), before, t)
    requires Run(End(World(State(objects, []), map[]), before, t), after, t)
    ensures var mid := End(World(State(objects, []), map[]), before, t);
            var end := End(mid, after, t);
            p in mid.publishers && q in end.publishers
            && mid.publishers[p].pc.Done? && mid.publishers[p].pc.outcome.Published?
            && end.publishers[q].pc.Done? && end.publishers[q].pc.outcome.Published? ==>
              mid.publishers[p].pc.outcome == end.publishers[q].pc.outcome
  {
    RunKeeps(World(State(objects, []), map[]), before, t);
    RunKeeps(End(World(State(objects, []), map[]), before, t), after, t);
  }
}
