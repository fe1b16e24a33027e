/**
 The transaction wrapper: commit or roll back, and retry serialization failures a bounded number of times.

 A transaction body reads the store it is given and returns what it makes of it and its error. Around it the
 database decides: what others commit before an attempt takes its snapshot, and which of begin, rollback
 and commit fail. A failed commit commits nothing. What a body does outside the database, like sending a mail,
 is counted: no rollback undoes it, and every attempt does it anew.
 */
module Transactions {
  import opened Basics

  type Message = string

  const COULD_NOT_SERIALIZE: Message := "could not serialize access"
  const MAX_TRIES: nat := 10

  /** An error: one that the program defines, one of the database, or one with that of a failed rollback. */
  datatype Error<+D> =
    | Domain(error: D, message: Message)
    | Database(message: Message)
    | CouldNotBegin(cause: Message, deadlineExceeded: bool)
    | Joined(first: Error<D>, rollback: Message)

  function Text<D>(e: Error<D>): Message {
    match e
    case Domain(_, message) => message
    case Database(message) => message
    case CouldNotBegin(cause, deadlineExceeded) =>
      (if deadlineExceeded then "could not begin transaction (possible pool " + "exhaustion \U{2014} context deadline exceeded): "
       else "could not begin transaction: ") + cause
    case Joined(first, rollback) => Join(Text(first), rollback)
  }

  /** Two errors joined into one, their texts on separate lines. */
  function Join(text: Message, other: Message): Message { text + "\n" + other }

  /** The error of the program that an error wraps. */
  function Cause<D>(e: Error<D>): Option<D> {
    match e
    case Domain(error, _) => Some(error)
    case Joined(first, _) => Cause(first)
    case _ => None
  }

  /** Serialization failures are told by the text of the error. */
  predicate Retryable<D>(e: Error<D>) { Contains(Text(e), COULD_NOT_SERIALIZE) }

  /** What a body makes of the store, its error, and how many effects it had outside the database. */
  type Body<!S, !D> = (nat, S) -> (S, Option<Error<D>>, nat)

  /** What surrounds one attempt. */
  datatype Weather<!S> = Weather(
    others: S -> S, begin: Option<(Message, bool)>, rollback: Option<Message>, commit: Option<Message>)

  /** One attempt on the store as it finds it: what it leaves, its error if it does not commit, and its outside effects. */
  function Attempted<S, D>(body: Body<S, D>, i: nat, w: Weather<S>, s: S): (S, Option<Error<D>>, nat) {
    if w.begin.Some? then (s, Some(CouldNotBegin(w.begin.value.0, w.begin.value.1)), 0)
    else
      var (s', failure, effects) := body(i, s);
      if failure.Some? then (s, Some(if w.rollback.Some? then Joined(failure.value, w.rollback.value) else failure.value), effects)
      else if w.commit.Some? then (s, Some(Database(w.commit.value)), effects)
      else (s', None, effects)
  }

  /** The store that attempt `i` finds when all earlier ones have failed: only others have committed. */
  function Found<S>(weather: nat -> Weather<S>, s: S, i: nat): S {
    weather(i).others(if i == 0 then s else Found(weather, s, i - 1))
  }

  class Store<S> {
    var committed: S
    var outside: nat   // effects outside the database so far

    constructor (initial: S)
      ensures committed == initial && outside == 0
    {
      committed := initial;
      outside := 0;
    }

    /** One attempt: what the body makes of the store is committed, or nothing; its outside effects stay. */
    method UpdateOnce<D>(body: Body<S, D>, i: nat, w: Weather<S>) returns (error: Option<Error<D>>)
      modifies this
      ensures var attempt := Attempted(body, i, w, w.others(old(committed)));
              committed == attempt.0 && error == attempt.1 && outside == old(outside) + attempt.2
    {
      committed := w.others(committed);
      if w.begin.Some? {
        return Some(CouldNotBegin(w.begin.value.0, w.begin.value.1));
      }
      var (working, failure, effects) := body(i, committed);
      outside := outside + effects;
      if failure.Some? {
        error := failure;
        if w.rollback.Some? {
          error := Some(Joined(error.value, w.rollback.value));
        }
        return;
      }
      if w.commit.Some? {
        return Some(Database(w.commit.value));
      }
      committed := working;
      return None;
    }

    /**
     Attempts until one commits, one fails for good, or MAX_TRIES have failed to serialize. Besides what
     others have committed, the store holds exactly what the last attempt's body did if no error is
     returned, and nothing otherwise. The outside effects of all attempts add up.
     */
    method UpdateInTx<D>(body: Body<S, D>, weather: nat -> Weather<S>) returns (error: Option<Error<D>>, tries: nat)
      modifies this
      ensures RanTo(body, weather, old(committed), tries, error)
      ensures var found := Found(weather, old(committed), tries - 1);
              committed == if error.None? then body(tries - 1, found).0 else found
      ensures outside == old(outside) + Effects(body, weather, old(committed), tries)
    {
      ghost var s, effects := committed, 0;
      tries := 0;
      error := None;
      while tries < MAX_TRIES
        invariant tries <= MAX_TRIES && outside == old(outside) + effects
        invariant AllFail(body, weather, s, tries)
        invariant if tries == 0 then committed == s && effects == 0
                  else error.Some? && Stands(body, weather, s, tries, error, committed, effects)
      {
        ghost var before := committed;
        error := UpdateOnce(body, tries, weather(tries));
        OneMore(body, weather, s, tries, before, committed, error);
        FailedOrRan(body, weather, s, tries, error);
        effects := Effects(body, weather, s, tries + 1);
        tries := tries + 1;
        if error.None? || !Retryable(error.value) {
          return;
        }
      }
    }
  }

  /** After `tries` attempts: the error of the last, what the store holds, and the outside effects so far. */
  ghost predicate Stands<S, D>(body: Body<S, D>, weather: nat -> Weather<S>, s: S, tries: nat,
                               error: Option<Error<D>>, after: S, effects: nat)
    requires tries >= 1
  {
    && error == AttemptError(body, weather, s, tries - 1)
    && after == (if error.None? then body(tries - 1, Found(weather, s, tries - 1)).0 else Found(weather, s, tries - 1))
    && effects == Effects(body, weather, s, tries)
  }

  /** All of the first `n` attempts fail to serialize. */
  ghost predicate AllFail<S, D>(body: Body<S, D>, weather: nat -> Weather<S>, s: S, n: nat) {
    forall i :: 0 <= i < n ==> FailsToSerialize(body, weather, s, i)
  }

  lemma FailedOrRan<S, D>(body: Body<S, D>, weather: nat -> Weather<S>, s: S, i: nat, error: Option<Error<D>>)
    requires i < MAX_TRIES && AllFail(body, weather, s, i) && error == AttemptError(body, weather, s, i)
    ensures if error.Some? && Retryable(error.value) then AllFail(body, weather, s, i + 1) else RanTo(body, weather, s, i + 1, error)
    ensures i + 1 == MAX_TRIES ==> RanTo(body, weather, s, i + 1, error)
  {
    assert FailsToSerialize(body, weather, s, i) <==> error.Some? && Retryable(error.value);
  }

  lemma OneMore<S, D>(body: Body<S, D>, weather: nat -> Weather<S>, s: S, i: nat, before: S, after: S, error: Option<Error<D>>)
    requires before == if i == 0 then s else Found(weather, s, i - 1)
    requires var attempt := Attempted(body, i, weather(i), weather(i).others(before));
             after == attempt.0 && error == attempt.1
    ensures var effects' := Effects(body, weather, s, i) + Attempted(body, i, weather(i), weather(i).others(before)).2;
            effects' == Effects(body, weather, s, i + 1) && Stands(body, weather, s, i + 1, error, after, effects')
  {
    assert Found(weather, s, i) == weather(i).others(before);
  }

  function AttemptError<S, D>(body: Body<S, D>, weather: nat -> Weather<S>, s: S, i: nat): Option<Error<D>> {
    Attempted(body, i, weather(i), Found(weather, s, i)).1
  }

  /** The outside effects of the first `n` attempts. */
  function Effects<S, D>(body: Body<S, D>, weather: nat -> Weather<S>, s: S, n: nat): nat {
    if n == 0 then 0 else Effects(body, weather, s, n - 1) + Attempted(body, n - 1, weather(n - 1), Found(weather, s, n - 1)).2
  }

  predicate FailsToSerialize<S, D>(body: Body<S, D>, weather: nat -> Weather<S>, s: S, i: nat) {
    var error := AttemptError(body, weather, s, i);
    error.Some? && Retryable(error.value)
  }

  /** The wrapper stopped after `tries` attempts with the error of the last one. */
  ghost predicate RanTo<S, D>(body: Body<S, D>, weather: nat -> Weather<S>, s: S, tries: nat, error: Option<Error<D>>) {
    && 1 <= tries <= MAX_TRIES
    && AllFail(body, weather, s, tries - 1)
    && error == AttemptError(body, weather, s, tries - 1)
    && (tries < MAX_TRIES ==> !FailsToSerialize(body, weather, s, tries - 1))
  }

  /** Where the wrapper stops is determined by the body and what surrounds it. */
  lemma StopsOnce<S, D>(body: Body<S, D>, weather: nat -> Weather<S>, s: S,
                        tries: nat, error: Option<Error<D>>, tries': nat, error': Option<Error<D>>)
    requires RanTo(body, weather, s, tries, error) && RanTo(body, weather, s, tries', error')
    ensures tries == tries' && error == error'
  {
    var last, last' := FailsToSerialize(body, weather, s, tries - 1), FailsToSerialize(body, weather, s, tries' - 1);
  }

  /** An attempt is followed by another exactly when it is not the tenth and fails with a text that has the phrase. */
  lemma RetriedIff<S, D>(body: Body<S, D>, weather: nat -> Weather<S>, s: S, tries: nat, error: Option<Error<D>>, i: nat)
    requires RanTo(body, weather, s, tries, error) && i < tries
    ensures i + 1 < tries <==>
              && i + 1 < 10 && AttemptError(body, weather, s, i).Some?
              && Contains(Text(AttemptError(body, weather, s, i).value), "could not serialize access")
  {
    assert FailsToSerialize(body, weather, s, i) <==>
             AttemptError(body, weather, s, i).Some? && Retryable(AttemptError(body, weather, s, i).value);
  }

  /** The attempts among the first `n` that commit. */
  function Commits<S, D>(body: Body<S, D>, weather: nat -> Weather<S>, s: S, n: nat): set<nat> {
    set i: nat | i < n && AttemptError(body, weather, s, i).None?
  }

  /** At most one attempt commits, and the wrapper returns no error exactly when one did. */
  lemma CommitsAtMostOnce<S, D>(body: Body<S, D>, weather: nat -> Weather<S>, s: S, tries: nat, error: Option<Error<D>>)
    requires RanTo(body, weather, s, tries, error)
    ensures Commits(body, weather, s, tries) == if error.None? then {tries - 1} else {}
  {
    forall i | i in Commits(body, weather, s, tries) ensures i == tries - 1 {
      var failed := FailsToSerialize(body, weather, s, i);
    }
  }

  lemma OccurrenceAt(text: string, part: string, i: nat, j: nat)
    requires i + |part| <= |text| && OccursAt(text, part, i) && j < |part|
    ensures text[i + j] == part[j]
  {
    assert text[i..i + |part|][j] == text[i + j];
  }

  lemma OccursInJoin(a: string, b: string, part: string, i: nat)
    requires '\n' !in part && i + |part| <= |Join(a, b)| && OccursAt(Join(a, b), part, i) && part != []
    ensures (i + |part| <= |a| && OccursAt(a, part, i)) || (i > |a| && OccursAt(b, part, i - |a| - 1))
  {
    var text := Join(a, b);
    assert text[|a|] == '\n';
    if i + |part| <= |a| {
      assert a[i..i + |part|] == text[i..i + |part|];
    } else if i > |a| {
      assert b[i - |a| - 1..i - |a| - 1 + |part|] == text[i..i + |part|];
    } else {
      OccurrenceAt(text, part, i, |a| - i);
    }
  }

  /** The error of a failed rollback hides neither the error of the program nor a serialization failure, and invents none. */
  lemma RollbackErrorKeepsCause<D>(e: Error<D>, rollback: Message)
    ensures Cause(Joined(e, rollback)) == Cause(e)
    ensures Retryable(Joined(e, rollback)) <==> Retryable(e) || Contains(rollback, "could not serialize access")
  {
    JoinedContains(Text(e), rollback);
  }

  /** An error of the database is retried exactly if its text has the phrase, wherever; so are those that PostgreSQL sends. */
  lemma DatabaseErrorRetriedIff<D>(text: Message)
    ensures Retryable<D>(Database(text)) <==> exists before, after :: text == before + "could not serialize access" + after
  {
    var part := COULD_NOT_SERIALIZE;
    if i :| 0 <= i <= |text| - |part| && OccursAt(text, part, i) {
      assert text == text[..i] + part + text[i + |part|..];
    }
    if before, after :| text == before + "could not serialize access" + after {
      assert text[|before|..|before| + |part|] == part;
      assert OccursAt(text, part, |before|);
    }
  }

  /** What PostgreSQL sends for a row that was changed since the snapshot. */
  lemma ConcurrentUpdateIsRetried<D>()
    ensures Retryable<D>(Database("ERROR: could not serialize access" + " due to concurrent update (SQLSTATE 40001)"))
  {
    var after := " due to concurrent update (SQLSTATE 40001)";
    assert "ERROR: could not serialize access" == "ERROR: " + "could not serialize access";
    assert "ERROR: could not serialize access" + after == "ERROR: " + "could not serialize access" + after;
    DatabaseErrorRetriedIff<D>("ERROR: could not serialize access" + after);
  }

  predicate NoStartAt(prefix: string, i: int)
    requires 0 <= i < |prefix|
  {
    prefix[i] != 'c' || (i + 1 < |prefix| && prefix[i + 1] != 'o')
  }

  /** The phrase cannot begin in a prefix that ends like this one. */
  predicate AddsNoPhrase(prefix: string) {
    && (forall i :: 0 <= i < |prefix| ==> prefix[i] != 'z')
    && forall i :: |prefix| - 17 <= i < |prefix| && 0 <= i ==> NoStartAt(prefix, i)
  }

  lemma PrefixAddsNothing(prefix: string, text: string)
    requires AddsNoPhrase(prefix)
    ensures Contains(prefix + text, COULD_NOT_SERIALIZE) <==> Contains(text, COULD_NOT_SERIALIZE)
  {
    var part, whole := COULD_NOT_SERIALIZE, prefix + text;
    if i :| 0 <= i <= |text| - |part| && OccursAt(text, part, i) {
      assert whole[|prefix| + i..|prefix| + i + |part|] == text[i..i + |part|];
      assert OccursAt(whole, part, |prefix| + i);
    }
    if i :| 0 <= i <= |whole| - |part| && OccursAt(whole, part, i) {
      OccurrenceAt(whole, part, i, 0);
      OccurrenceAt(whole, part, i, 1);
      OccurrenceAt(whole, part, i, 17);
      assert part[0] == 'c' && part[1] == 'o' && part[17] == 'z';
      assert forall k :: 0 <= k < |prefix| ==> whole[k] == prefix[k];
      assert i < |prefix| && i >= |prefix| - 17 ==> NoStartAt(prefix, i);
      assert i >= |prefix|;
      assert text[i - |prefix|..i - |prefix| + |part|] == whole[i..i + |part|];
      assert OccursAt(text, part, i - |prefix|);
    }
  }

  /** A transaction that could not begin is tried again exactly if the cause has the phrase. */
  lemma BeginErrorRetriedIff<D>(cause: Message, deadlineExceeded: bool)
    ensures Retryable<D>(CouldNotBegin(cause, deadlineExceeded)) <==> Contains(cause, "could not serialize access")
  {
    if deadlineExceeded {
      var first, second := "could not begin transaction (possible pool ", "exhaustion \U{2014} context deadline exceeded): ";
      assert 'z' !in first;
      SuffixDecides(first, second);
      PrefixAddsNothing(first + second, cause);
    } else {
      PrefixAddsNothing("could not begin transaction: ", cause);
    }
  }

  lemma SuffixDecides(first: string, second: string)
    requires 'z' !in first && |second| >= 18 && AddsNoPhrase(second)
    ensures AddsNoPhrase(first + second)
  {
    var prefix := first + second;
    forall i | |prefix| - 17 <= i < |prefix| && 0 <= i ensures NoStartAt(prefix, i) {
      assert NoStartAt(second, i - |first|);
    }
    forall i | 0 <= i < |prefix| ensures prefix[i] != 'z' {
      assert i < |first| ==> first[i] in first;
    }
  }

  lemma JoinedContains(error: Message, rollback: Message)
    ensures Contains(Join(error, rollback), COULD_NOT_SERIALIZE)
            <==> Contains(error, COULD_NOT_SERIALIZE) || Contains(rollback, COULD_NOT_SERIALIZE)
  {
    var part, text := COULD_NOT_SERIALIZE, Join(error, rollback);
    if i :| 0 <= i <= |error| - |part| && OccursAt(error, part, i) {
      assert text[i..i + |part|] == error[i..i + |part|];
      assert OccursAt(text, part, i);
    }
    if i :| 0 <= i <= |rollback| - |part| && OccursAt(rollback, part, i) {
      var j := |error| + 1 + i;
      assert text[j..j + |part|] == rollback[i..i + |part|];
      assert OccursAt(text, part, j);
    }
    if i :| 0 <= i <= |text| - |part| && OccursAt(text, part, i) {
      OccursInJoin(error, rollback, part, i);
    }
  }
}
