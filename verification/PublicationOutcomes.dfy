/** What a publication comes to when nothing fails and nobody else touches its two keys: an account of
    the recorded turns of the method Publish. */
module PublicationOutcomes {
  import opened Common
  import opened ObjectPublication
  import Runs = ObjectPublicationRuns

  /** The two keys and the log are alike. */
  predicate Alike(a: State, b: State, t: Target, staging: Key) {
    && a.log == b.log
    && (t.final in a.objects <==> t.final in b.objects) && (t.final in a.objects ==> a.objects[t.final] == b.objects[t.final])
    && (staging in a.objects <==> staging in b.objects) && (staging in a.objects ==> a.objects[staging] == b.objects[staging])
  }

  ghost predicate IsTurn(moves: seq<Move>, i: nat) {
    exists k :: 0 <= k < |moves| && moves[k].at == i
  }

  /** Only the publisher's own turns touch them. */
  ghost predicate Alone(moves: seq<Move>, history: seq<State>, from: nat, t: Target, staging: Key) {
    0 < from <= |history| && forall i | from <= i < |history| && !IsTurn(moves, i) :: Alike(history[i - 1], history[i], t, staging)
  }

  // ---- The recorded turns in order -------------------------------------------------------------

  predicate Follows(moves: seq<Move>, t: Target, k: nat)
    requires k + 1 < |moves|
  {
    moves[k + 1].pc == NextPc(moves[k].pc, t, moves[k].answer)
  }

  /** A finished program as its turns: in ascending order, each leading to the next. */
  ghost predicate Account(moves: seq<Move>, history: seq<State>, from: nat, t: Target, staging: Key, outcome: Outcome) {
    && moves != [] && moves[0].pc == Idle
    && (forall j, k | 0 <= j < k < |moves| :: moves[j].at < moves[k].at)
    && (forall k | 0 <= k < |moves| :: Turned(moves[k], history, from, t, staging))
    && (forall k {:trigger Follows(moves, t, k)} | 0 <= k && k + 1 < |moves| :: Follows(moves, t, k))
    && NextPc(moves[|moves| - 1].pc, t, moves[|moves| - 1].answer) == Done(outcome)
  }

  lemma ProgramAccount(moves: seq<Move>, history: seq<State>, from: nat, t: Target, staging: Key, outcome: Outcome)
    requires Program(moves, history, from, t, staging, Done(outcome))
    ensures Account(moves, history, from, t, staging, outcome)
  {
    forall j, k | 0 <= j < k < |moves| ensures moves[j].at < moves[k].at {
      Ascending(moves, history, from, t, staging, Done(outcome), j, k);
    }
  }

  lemma {:induction false} Ascending(moves: seq<Move>, history: seq<State>, from: nat, t: Target, staging: Key, pc: Pc, j: nat, k: nat)
    requires Program(moves, history, from, t, staging, pc) && j < k < |moves|
    ensures moves[j].at < moves[k].at
  {
    if j + 1 < k { Ascending(moves, history, from, t, staging, pc, j, k - 1); }
  }

  /** An account of a publication nothing fails in and nobody else interferes with. */
  ghost predicate Undisturbed(moves: seq<Move>, history: seq<State>, from: nat, t: Target, staging: Key, outcome: Outcome) {
    && Account(moves, history, from, t, staging, outcome) && AllPlain(moves) && Alone(moves, history, from, t, staging)
  }

  lemma {:induction false} Quiet(moves: seq<Move>, history: seq<State>, from: nat, t: Target, staging: Key, a: nat, b: nat)
    requires Alone(moves, history, from, t, staging) && from - 1 <= a <= b < |history|
    requires forall i | a < i <= b :: !IsTurn(moves, i)
    ensures Alike(history[a], history[b], t, staging)
    decreases b - a
  {
    if a < b { Quiet(moves, history, from, t, staging, a, b - 1); }
  }

  /** Where the publisher was last seen before turn k. */
  function LastSeen(moves: seq<Move>, from: nat, k: nat): nat
    requires 0 < from && k <= |moves|
  {
    if k == 0 then from - 1 else moves[k - 1].at
  }

  lemma NoTurnBetween(moves: seq<Move>, history: seq<State>, from: nat, t: Target, staging: Key, outcome: Outcome, k: nat, i: nat)
    requires Account(moves, history, from, t, staging, outcome) && 0 < from && k <= |moves|
    requires LastSeen(moves, from, k) < i && (k < |moves| ==> i < moves[k].at)
    ensures !IsTurn(moves, i)
  {
    forall j | 0 <= j < |moves| ensures moves[j].at != i {
      if j < k - 1 { assert moves[j].at < moves[k - 1].at; }
      if j > k { assert moves[k].at < moves[j].at; }
    }
  }

  /** The state before turn k, or at the end, is the one the turn before left. */
  lemma Unchanged(moves: seq<Move>, history: seq<State>, from: nat, t: Target, staging: Key, outcome: Outcome, k: nat)
    requires Undisturbed(moves, history, from, t, staging, outcome) && k <= |moves|
    ensures var now := if k < |moves| then moves[k].at - 1 else |history| - 1;
            && LastSeen(moves, from, k) <= now < |history|
            && Alike(history[LastSeen(moves, from, k)], history[now], t, staging)
  {
    var (a, b) := (LastSeen(moves, from, k), if k < |moves| then moves[k].at - 1 else |history| - 1);
    if k < |moves| { assert Turned(moves[k], history, from, t, staging); }
    if k > 0 { assert Turned(moves[k - 1], history, from, t, staging); }
    forall i | a < i <= b ensures !IsTurn(moves, i) { NoTurnBetween(moves, history, from, t, staging, outcome, k, i); }
    Quiet(moves, history, from, t, staging, a, b);
  }

  // ---- One turn after another --------------------------------------------------------------------

  lemma AlikeOffers(a: State, b: State, pc: Pc, t: Target, staging: Key, answer: Answer)
    requires Alike(a, b, t, staging)
    ensures Offered(a, pc, t, staging, answer) <==> Offered(b, pc, t, staging, answer)
    ensures Alike(NextState(a, pc, t, answer), NextState(b, pc, t, answer), t, staging)
  {}

  /** Where the program has come to before turn k, in a state like s. */
  ghost predicate Stands(moves: seq<Move>, history: seq<State>, from: nat, t: Target, staging: Key, k: nat, pc: Pc, s: State) {
    && 0 < from && k < |moves| && moves[k].pc == pc && LastSeen(moves, from, k) < |history|
    && Alike(s, history[LastSeen(moves, from, k)], t, staging)
  }

  /** One turn: the answer is one the state allows, and either the program is done or it goes on. */
  lemma OneTurn(moves: seq<Move>, history: seq<State>, from: nat, t: Target, staging: Key, outcome: Outcome, k: nat, pc: Pc, s: State)
    returns (answer: Answer)
    requires Undisturbed(moves, history, from, t, staging, outcome) && Stands(moves, history, from, t, staging, k, pc, s)
    ensures Offered(s, pc, t, staging, answer) && Plain(answer)
    ensures var (pc', s') := (NextPc(pc, t, answer), NextState(s, pc, t, answer));
            if pc'.Done? then pc' == Done(outcome) && Alike(s', history[|history| - 1], t, staging)
            else Stands(moves, history, from, t, staging, k + 1, pc', s')
  {
    answer := moves[k].answer;
    Unchanged(moves, history, from, t, staging, outcome, k);
    assert Turned(moves[k], history, from, t, staging);
    AlikeOffers(s, history[moves[k].at - 1], pc, t, staging, answer);
    if k + 1 < |moves| {
      assert Follows(moves, t, k) && Turned(moves[k + 1], history, from, t, staging);
    } else {
      Unchanged(moves, history, from, t, staging, outcome, |moves|);
    }
  }

  // ---- The outcome -------------------------------------------------------------------------------

  /** What is read of a key when the reading succeeds. */
  function ReadingOf(s: State, key: Key, maxBytes: nat): Snapshot {
    if key !in s.objects then Missing
    else if 1 <= |s.objects[key].bytes| <= maxBytes then Taken(Seen(s.objects[key])) else TooBigOrEmpty
  }

  /** What is stored of a staged object: its bytes and metadata under the validator's content type. */
  function Final(s: State, t: Target, staging: Key): Object
    requires staging in s.objects && t.validator(Seen(s.objects[staging])).Some?
  {
    Seen(s.objects[staging]).(contentType := t.validator(Seen(s.objects[staging])).value.contentType)
  }

  predicate Publishable(s: State, t: Target, staging: Key) {
    && t.final !in s.objects && staging in s.objects
    && 1 <= |s.objects[staging].bytes| <= t.maxBytes && t.validator(Seen(s.objects[staging])).Some?
  }

  /** The object is there, the only one written, and the result is what the validator says of it as
      read back. */
  ghost predicate PublishedAs(s: State, s': State, t: Target, o: Object, outcome: Outcome) {
    && t.final in s'.objects && s'.objects[t.final] == o && s'.log == s.log + [o]
    && outcome == if t.validator(Seen(o)).Some? then Published(t.validator(Seen(o)).value) else Refused
  }

  /** An undisturbed publication. An existing final object is judged and nothing is written. Otherwise
      a missing, ill-sized or refused staged object is reported so and nothing is written; an accepted
      one is written, exactly once, and what the validator says of it as read back is the result. */
  lemma CalmPublication(moves: seq<Move>, history: seq<State>, from: nat, t: Target, staging: Key, outcome: Outcome)
    requires Program(moves, history, from, t, staging, Done(outcome)) && AllPlain(moves) && Alone(moves, history, from, t, staging)
    ensures var (s, s') := (history[from - 1], history[|history| - 1]);
            if Publishable(s, t, staging) then PublishedAs(s, s', t, Final(s, t, staging), outcome)
            else
              && Alike(s, s', t, staging)
              && outcome == if t.final in s.objects then Judged(ReadingOf(s, t.final, t.maxBytes), t.validator)
                            else Judged(ReadingOf(s, staging, t.maxBytes), t.validator)
  {
    ProgramAccount(moves, history, from, t, staging, outcome);
    AccountSettles(moves, history, from, t, staging, outcome);
  }

  lemma AccountSettles(moves: seq<Move>, history: seq<State>, from: nat, t: Target, staging: Key, outcome: Outcome)
    requires Undisturbed(moves, history, from, t, staging, outcome)
    ensures var (s, s') := (history[from - 1], history[|history| - 1]);
            if Publishable(s, t, staging) then PublishedAs(s, s', t, Final(s, t, staging), outcome)
            else
              && Alike(s, s', t, staging)
              && outcome == if t.final in s.objects then Judged(ReadingOf(s, t.final, t.maxBytes), t.validator)
                            else Judged(ReadingOf(s, staging, t.maxBytes), t.validator)
  {
    var s := history[from - 1];
    assert Stands(moves, history, from, t, staging, 0, Idle, s);
    var look := OneTurn(moves, history, from, t, staging, outcome, 0, Idle, s);
    assert look == Seeing(ReadingOf(s, t.final, t.maxBytes));
    if t.final !in s.objects { FetchSettles(moves, history, from, t, staging, outcome); }
  }

  lemma FetchSettles(moves: seq<Move>, history: seq<State>, from: nat, t: Target, staging: Key, outcome: Outcome)
    requires Undisturbed(moves, history, from, t, staging, outcome) && t.final !in history[from - 1].objects
    requires Stands(moves, history, from, t, staging, 1, Cleared, history[from - 1])
    ensures var (s, s') := (history[from - 1], history[|history| - 1]);
            if Publishable(s, t, staging) then PublishedAs(s, s', t, Final(s, t, staging), outcome)
            else Alike(s, s', t, staging) && outcome == Judged(ReadingOf(s, staging, t.maxBytes), t.validator)
  {
    var s := history[from - 1];
    var fetch := OneTurn(moves, history, from, t, staging, outcome, 1, Cleared, s);
    assert fetch == Seeing(ReadingOf(s, staging, t.maxBytes));
    if Publishable(s, t, staging) { PutAndLook(moves, history, from, t, staging, outcome); }
  }

  lemma PutAndLook(moves: seq<Move>, history: seq<State>, from: nat, t: Target, staging: Key, outcome: Outcome)
    requires Undisturbed(moves, history, from, t, staging, outcome) && Publishable(history[from - 1], t, staging)
    requires Stands(moves, history, from, t, staging, 2, Staged(Final(history[from - 1], t, staging), 0), history[from - 1])
    ensures PublishedAs(history[from - 1], history[|history| - 1], t, Final(history[from - 1], t, staging), outcome)
  {
    var (s, o) := (history[from - 1], Final(history[from - 1], t, staging));
    var put := OneTurn(moves, history, from, t, staging, outcome, 2, Staged(o, 0), s);
    assert put == Putting(Created, true);
    LookAfter(moves, history, from, t, staging, outcome, s, o);
  }

  lemma LookAfter(moves: seq<Move>, history: seq<State>, from: nat, t: Target, staging: Key, outcome: Outcome, s: State, o: Object)
    requires Undisturbed(moves, history, from, t, staging, outcome) && 1 <= |o.bytes| <= t.maxBytes
    requires Stands(moves, history, from, t, staging, 3, Sent(o, 1, Created), AfterPut(s, t.final, o, true))
    ensures PublishedAs(s, history[|history| - 1], t, o, outcome)
  {
    var s' := AfterPut(s, t.final, o, true);
    var look := OneTurn(moves, history, from, t, staging, outcome, 3, Sent(o, 1, Created), s');
    assert look == Seeing(Taken(Seen(o)));
  }

  // ---- Every publication -------------------------------------------------------------------------

  /** A put by the publisher. */
  predicate Puts(m: Move) { m.answer.Putting? }

  /** Whatever else happens in the bucket and however calls fail: a failed put is the last call and ends
      in an unavailable store; after any other the publisher looks who won, and puts again only if that
      put met a conflict and nobody had. */
  lemma RetriesOnlyAfterConflict(moves: seq<Move>, history: seq<State>, from: nat, t: Target, staging: Key, outcome: Outcome, k: nat)
    requires Program(moves, history, from, t, staging, Done(outcome)) && k < |moves| && Puts(moves[k])
    ensures moves[k].answer.put.Failed? ==> k == |moves| - 1 && outcome == StorageUnavailable
    ensures !moves[k].answer.put.Failed? ==> k + 1 < |moves| && moves[k + 1].answer.Seeing?
    ensures !moves[k].answer.put.Failed? && k + 2 < |moves| ==>
              Puts(moves[k + 2]) && moves[k].answer.put.Conflict? && moves[k + 1].answer.snapshot.Missing?
    ensures !moves[k].answer.put.Failed? && k + 2 == |moves| ==>
              outcome == if moves[k + 1].answer.snapshot.Missing? then StorageUnavailable
                         else Judged(moves[k + 1].answer.snapshot, t.validator)
  {
    ProgramAccount(moves, history, from, t, staging, outcome);
    assert Turned(moves[k], history, from, t, staging);
    if k + 1 < |moves| { assert Follows(moves, t, k) && Turned(moves[k + 1], history, from, t, staging); }
    if k + 2 < |moves| { assert Follows(moves, t, k + 1) && Turned(moves[k + 2], history, from, t, staging); }
  }

  function PutsAmong(moves: seq<Move>, n: nat): nat
    requires n <= |moves|
  {
    if n == 0 then 0 else PutsAmong(moves, n - 1) + if Puts(moves[n - 1]) then 1 else 0
  }

  function PutsSoFar(pc: Pc): nat {
    match pc
    case Staged(_, puts) => puts
    case Sent(_, puts, _) => puts
    case _ => 0
  }

  lemma {:induction false} PutsCounted(moves: seq<Move>, history: seq<State>, from: nat, t: Target, staging: Key, outcome: Outcome, k: nat)
    requires Account(moves, history, from, t, staging, outcome) && k < |moves|
    ensures PutsAmong(moves, k) == PutsSoFar(moves[k].pc) && (moves[k].pc.Staged? ==> moves[k].pc.puts < ATTEMPTS)
  {
    if k > 0 {
      PutsCounted(moves, history, from, t, staging, outcome, k - 1);
      assert Follows(moves, t, k - 1) && Turned(moves[k - 1], history, from, t, staging) && Turned(moves[k], history, from, t, staging);
    }
  }

  /** There are at most three puts. */
  lemma AtMostThreePuts(moves: seq<Move>, history: seq<State>, from: nat, t: Target, staging: Key, outcome: Outcome)
    requires Program(moves, history, from, t, staging, Done(outcome))
    ensures PutsAmong(moves, |moves|) <= 3
  {
    ProgramAccount(moves, history, from, t, staging, outcome);
    var k := |moves| - 1;
    PutsCounted(moves, history, from, t, staging, outcome, k);
    assert Turned(moves[k], history, from, t, staging);
    LastPuts(moves[k].pc, t, moves[k].answer);
    if moves[k].pc.Sent? {
      assert k > 0 ==> Follows(moves, t, k - 1);
      PutsCounted(moves, history, from, t, staging, outcome, k - 1);
    }
  }

  lemma LastPuts(pc: Pc, t: Target, answer: Answer)
    ensures pc.Staged? && NextPc(pc, t, answer).Sent? ==> NextPc(pc, t, answer).puts == pc.puts + 1
  {}

  // ---- Runs reach their end ----------------------------------------------------------------------

  /** An uploader stages an object, one publisher publishes it undisturbed, and the staged one is removed:
      the runs of ObjectPublicationRuns do come to this. */
  lemma LonePublication(objects: map<Key, Object>, t: Target, staging: Key, o: Object, p: Runs.Pid) returns (steps: seq<Runs.Step>)
    requires t.final !in objects && staging != t.final
    requires Publishable(State(objects[staging := o], []), t, staging)
    ensures var start := Runs.World(State(objects, []), map[]);
            Runs.Run(start, steps, t)
            && var end := Runs.End(start, steps, t);
               var final := Final(State(objects[staging := o], []), t, staging);
               && end.store == State(objects[t.final := final] - {staging}, [final])
               && p in end.publishers
               && end.publishers[p].pc == Done(if t.validator(Seen(final)).Some? then Published(t.validator(Seen(final)).value) else Refused)
  {
    var w0 := Runs.World(State(objects, []), map[]);
    var staged := State(objects[staging := o], []);
    var final := Final(staged, t, staging);
    steps := [Runs.Upload(staging, Some(o)), Runs.Arrive(p, staging), Runs.Call(p, Seeing(Missing)),
              Runs.Call(p, Seeing(Taken(Seen(o)))), Runs.Call(p, Putting(Created, true)),
              Runs.Call(p, Seeing(Taken(Seen(final)))), Runs.Upload(staging, None)];
    var w1 := Runs.Next(w0, steps[0], t);
    var w2 := Runs.Next(w1, steps[1], t);
    var w3 := Runs.Next(w2, steps[2], t);
    var w4 := Runs.Next(w3, steps[3], t);
    assert w4.store == staged && w4.publishers[p].pc == Staged(final, 0);
    var w5 := Runs.Next(w4, steps[4], t);
    var w6 := Runs.Next(w5, steps[5], t);
    var w7 := Runs.Next(w6, steps[6], t);
    SevenSteps(w0, w1, w2, w3, w4, w5, w6, steps, t);
    assert w7.store.objects == objects[t.final := final] - {staging};
  }

  lemma SevenSteps(w0: Runs.World, w1: Runs.World, w2: Runs.World, w3: Runs.World, w4: Runs.World, w5: Runs.World, w6: Runs.World,
                   s: seq<Runs.Step>, t: Target)
    requires |s| == 7
    requires Runs.Enabled(w0, s[0], t) && w1 == Runs.Next(w0, s[0], t) && Runs.Enabled(w1, s[1], t) && w2 == Runs.Next(w1, s[1], t)
    requires Runs.Enabled(w2, s[2], t) && w3 == Runs.Next(w2, s[2], t) && Runs.Enabled(w3, s[3], t) && w4 == Runs.Next(w3, s[3], t)
    requires Runs.Enabled(w4, s[4], t) && w5 == Runs.Next(w4, s[4], t) && Runs.Enabled(w5, s[5], t) && w6 == Runs.Next(w5, s[5], t)
    requires Runs.Enabled(w6, s[6], t)
    ensures Runs.Run(w0, s, t) && Runs.End(w0, s, t) == Runs.Next(w6, s[6], t)
  {
    Before(w6, s, 6, t);
    Before(w5, s, 5, t);
    Before(w4, s, 4, t);
    Before(w3, s, 3, t);
    Before(w2, s, 2, t);
    Before(w1, s, 1, t);
    Before(w0, s, 0, t);
    assert s[0..] == s;
  }

  lemma Before(w: Runs.World, s: seq<Runs.Step>, i: nat, t: Target)
    requires i < |s| && Runs.Enabled(w, s[i], t) && Runs.Run(Runs.Next(w, s[i], t), s[i + 1..], t)
    ensures Runs.Run(w, s[i..], t) && Runs.End(w, s[i..], t) == Runs.End(Runs.Next(w, s[i], t), s[i + 1..], t)
  {
    assert s[i..][1..] == s[i + 1..];
  }
}
