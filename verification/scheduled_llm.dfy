/** Classification over two model paths with one circuit breaker per role and path, shared with other threads. */
module ScheduledLlm {
  import opened Common
  import opened Resilience

  datatype Role = Fast | Deep | Generation

  datatype Path = Path(model: string, base: Option<string>, apiKey: Option<string>, timeout: real, maxRetries: nat)

  /** Breakers are keyed without credentials or limits, but with the role. */
  datatype Key = Key(role: Role, model: string, base: Option<string>)

  function HealthKey(path: Path, role: Role): Key { Key(role, path.model, path.base) }

  function Other(role: Role): Role { if role == Fast then Deep else Fast }

  datatype Error = CircuitOpen(role: Role) | CallFailed(role: Role)

  datatype Outcome = Parsed(role: Role) | Raised(error: Error)

  /** What another thread does with the shared breakers. */
  datatype Action = Tries(key: Key) | Finishes(key: Key, ok: bool)

  lemma ResultsOf(trace: seq<Event<Key>>, e: Event<Key>, key: Key)
    ensures Results(trace + [e], key)
         == if e.Ended? && e.key == key then Results(trace, key) + [Entry(e.time, e.ok)] else Results(trace, key)
  {
    assert (trace + [e])[..|trace|] == trace;
  }

  lemma NoteResult(threshold: nat, log: seq<Entry>, e: Entry)
    ensures Replay(threshold, log + [e]) == Note(threshold, Replay(threshold, log), e)
  {
    assert (log + [e])[..|log|] == log;
  }

  /** Built up event by event: times never go back, and a call begins only when its path's breaker lets it. */
  ghost predicate Admitted(threshold: nat, reset: real, trace: seq<Event<Key>>, latest: real) {
    trace == []
    || (var before, e := trace[..|trace| - 1], trace[|trace| - 1];
        && e.time <= latest && Admitted(threshold, reset, before, e.time)
        && (e.Begun? ==> !Blocking(threshold, reset, Results(before, e.key), e.time)))
  }

  lemma AdmitOne(threshold: nat, reset: real, trace: seq<Event<Key>>, latest: real, e: Event<Key>)
    requires Admitted(threshold, reset, trace, latest) && latest <= e.time
    requires e.Begun? ==> !Blocking(threshold, reset, Results(trace, e.key), e.time)
    ensures Admitted(threshold, reset, trace + [e], e.time)
  {
    assert (trace + [e])[..|trace|] == trace;
    AdmittedLater(threshold, reset, trace, latest, e.time);
  }

  lemma AdmittedLater(threshold: nat, reset: real, trace: seq<Event<Key>>, latest: real, later: real)
    requires Admitted(threshold, reset, trace, latest) && latest <= later
    ensures Admitted(threshold, reset, trace, later)
  {
  }

  /** The same, read by position. */
  lemma {:induction false} AdmittedIsGuarded(threshold: nat, reset: real, trace: seq<Event<Key>>, latest: real)
    requires Admitted(threshold, reset, trace, latest)
    ensures Guarded(threshold, reset, trace) && Monotonic(trace)
    ensures forall i :: 0 <= i < |trace| ==> trace[i].time <= latest
    decreases |trace|
  {
    if trace != [] {
      var n := |trace| - 1;
      var before := trace[..n];
      AdmittedIsGuarded(threshold, reset, before, trace[n].time);
      forall i | 0 <= i < |trace| && trace[i].Begun?
        ensures !Blocking(threshold, reset, Results(trace[..i], trace[i].key), trace[i].time)
      {
        if i < n { assert before[i] == trace[i] && before[..i] == trace[..i]; }
      }
      forall i | 0 <= i < n ensures trace[i] == before[i] { }
    }
  }

  function At(breakers: map<Key, Breaker>, key: Key): Breaker {
    if key in breakers then breakers[key] else NEW_BREAKER
  }

  ghost predicate Summarizes(threshold: nat, breakers: map<Key, Breaker>, trace: seq<Event<Key>>) {
    forall key: Key :: At(breakers, key) == Replay(threshold, Results(trace, key))
  }

  lemma NewBreakerSummarizes(threshold: nat, breakers: map<Key, Breaker>, trace: seq<Event<Key>>, key: Key)
    requires Summarizes(threshold, breakers, trace) && key !in breakers
    ensures Summarizes(threshold, breakers[key := NEW_BREAKER], trace)
  {
    forall k: Key ensures At(breakers[key := NEW_BREAKER], k) == At(breakers, k) { }
  }

  lemma BegunSummarizes(threshold: nat, breakers: map<Key, Breaker>, trace: seq<Event<Key>>, key: Key, now: real)
    requires Summarizes(threshold, breakers, trace)
    ensures Summarizes(threshold, breakers, trace + [Begun(key, now)])
  {
    forall k: Key ensures Results(trace + [Event.Begun(key, now)], k) == Results(trace, k) {
      ResultsOf(trace, Event.Begun(key, now), k);
    }
  }

  lemma EndedSummarizes(threshold: nat, breakers: map<Key, Breaker>, trace: seq<Event<Key>>, key: Key, now: real, ok: bool)
    requires Summarizes(threshold, breakers, trace)
    ensures Summarizes(threshold, breakers[key := Note(threshold, At(breakers, key), Entry(now, ok))], trace + [Ended(key, now, ok)])
  {
    var breakers' := breakers[key := Note(threshold, At(breakers, key), Entry(now, ok))];
    NoteResult(threshold, Results(trace, key), Entry(now, ok));
    forall k: Key ensures At(breakers', k) == Replay(threshold, Results(trace + [Event.Ended(key, now, ok)], k)) {
      ResultsOf(trace, Event.Ended(key, now, ok), k);
    }
  }

  ghost predicate Sound(threshold: nat, reset: real, breakers: map<Key, Breaker>, trace: seq<Event<Key>>, latest: real) {
    Admitted(threshold, reset, trace, latest) && Summarizes(threshold, breakers, trace)
  }

  lemma LookUp(threshold: nat, reset: real, breakers: map<Key, Breaker>, trace: seq<Event<Key>>, key: Key, now: real)
    requires threshold > 0 && Summarizes(threshold, breakers, trace)
    ensures At(breakers, key).State(reset, now) == Open <==> Blocking(threshold, reset, Results(trace, key), now)
    ensures key !in breakers ==> Summarizes(threshold, breakers[key := NEW_BREAKER], trace)
  {
    StateIsLog(threshold, reset, Results(trace, key), now);
    if key !in breakers { NewBreakerSummarizes(threshold, breakers, trace, key); }
  }

  lemma BegunSound(
    threshold: nat, reset: real, breakers: map<Key, Breaker>, trace: seq<Event<Key>>, latest: real, key: Key, now: real)
    requires Sound(threshold, reset, breakers, trace, latest) && latest <= now
    requires !Blocking(threshold, reset, Results(trace, key), now)
    ensures Sound(threshold, reset, breakers, trace + [Begun(key, now)], now)
  {
    BegunSummarizes(threshold, breakers, trace, key, now);
    AdmitOne(threshold, reset, trace, latest, Event.Begun(key, now));
  }

  lemma EndedSound(
    threshold: nat, reset: real, breakers: map<Key, Breaker>, trace: seq<Event<Key>>, latest: real, key: Key, now: real, ok: bool)
    requires Sound(threshold, reset, breakers, trace, latest) && latest <= now
    ensures Sound(threshold, reset, breakers[key := Note(threshold, At(breakers, key), Entry(now, ok))],
      trace + [Ended(key, now, ok)], now)
  {
    EndedSummarizes(threshold, breakers, trace, key, now, ok);
    AdmitOne(threshold, reset, trace, latest, Event.Ended(key, now, ok));
  }

  lemma Associate<T>(a: seq<T>, b: seq<T>, c: seq<T>, d: seq<T>)
    ensures a + b + c + d == a + (b + c + d)
  {
  }

  /** When an attempt looks, ends, and is followed by the next; and what other threads do meanwhile. */
  datatype Window = Window(now: real, later: real, last: real, during: seq<Action>, after: seq<Action>) {
    predicate Ordered() { now <= later <= last }
  }

  datatype Tried = Skipped | Succeeded | Failed

  class ScheduledLLMClient {
    const threshold: nat
    const reset: real
    const fast: Path
    const deep: Path
    const general: Path
    var breakers: map<Key, Breaker>
    var fallbacks: map<Key, nat>
    ghost var trace: seq<Event<Key>>
    ghost var latest: real

    function PathOf(role: Role): Path {
      match role
      case Fast => fast
      case Deep => deep
      case Generation => general
    }

    function KeyOf(role: Role): Key { HealthKey(PathOf(role), role) }

    /** A breaker belongs to a role, and the model and address configured for it. */
    function RawKey(role: Role): Key {
      if role == Fast then Key(Fast, fast.model, fast.base)
      else if role == Deep then Key(Deep, deep.model, deep.base)
      else Key(Generation, general.model, general.base)
    }

    /** Each breaker is the replay of its path's results, and every call ever begun was let through. */
    ghost predicate Valid()
      reads this
    {
      threshold > 0 && Sound(threshold, reset, breakers, trace, latest)
    }

    constructor (threshold: nat, reset: real, fast: Path, deep: Path, general: Path)
      requires threshold > 0
      ensures Valid() && trace == [] && latest == 0.0 && fallbacks == map[]
      ensures this.threshold == threshold && this.reset == reset
      ensures this.fast == fast && this.deep == deep && this.general == general
    {
      this.threshold, this.reset, this.fast, this.deep, this.general := threshold, reset, fast, deep, general;
      breakers, fallbacks, trace, latest := map[], map[], [], 0.0;
    }

    /** Look at the breaker and, unless it is open, begin the call. */
    method Begin(key: Key, now: real) returns (begun: bool)
      requires Valid() && latest <= now
      modifies this
      ensures Valid() && latest <= now && fallbacks == old(fallbacks)
      ensures begun == !Blocking(threshold, reset, Results(old(trace), key), now)
      ensures trace == if begun then old(trace) + [Begun(key, now)] else old(trace)
    {
      LookUp(threshold, reset, breakers, trace, key, now);
      if key !in breakers { breakers := breakers[key := NEW_BREAKER]; }
      if breakers[key].State(reset, now) == Open { return false; }
      BegunSound(threshold, reset, breakers, trace, latest, key, now);
      trace, latest := trace + [Event.Begun(key, now)], now;
      return true;
    }

    /** Record how a call ended. */
    method Finish(key: Key, now: real, ok: bool)
      requires Valid() && latest <= now
      modifies this
      ensures Valid() && latest <= now && fallbacks == old(fallbacks)
      ensures trace == old(trace) + [Ended(key, now, ok)]
    {
      EndedSound(threshold, reset, breakers, trace, latest, key, now, ok);
      breakers := breakers[key := Note(threshold, At(breakers, key), Entry(now, ok))];
      trace, latest := trace + [Event.Ended(key, now, ok)], now;
    }

    method Interleave(actions: seq<Action>, now: real) returns (ghost events: seq<Event<Key>>)
      requires Valid() && latest <= now
      modifies this
      ensures Valid() && latest <= now && fallbacks == old(fallbacks) && trace == old(trace) + events
    {
      events := [];
      for i := 0 to |actions|
        invariant Valid() && latest <= now && fallbacks == old(fallbacks) && trace == old(trace) + events
      {
        match actions[i]
        case Tries(key) =>
          var begun := Begin(key, now);
          if begun { events := events + [Event.Begun(key, now)]; }
        case Finishes(key, ok) =>
          Finish(key, now, ok);
          events := events + [Event.Ended(key, now, ok)];
      }
    }

    /** The path's breaker was open on this trace at this time. */
    ghost predicate WasOpen(role: Role, seen: seq<Event<Key>>, now: real) {
      Blocking(threshold, reset, Results(seen, KeyOf(role)), now)
    }

    /** The call itself, with other threads acting until it ends. */
    method Run(key: Key, ok: bool, during: seq<Action>, later: real) returns (ghost events: seq<Event<Key>>)
      requires Valid() && latest <= later
      modifies this
      ensures Valid() && latest <= later && fallbacks == old(fallbacks) && trace == old(trace) + events
      ensures Ended(key, later, ok) in events
    {
      events := Interleave(during, later);
      Finish(key, later, ok);
      events := events + [Event.Ended(key, later, ok)];
    }

    /** The path was called first, under its own breaker, and the result recorded there. */
    ghost predicate Asked(role: Role, events: seq<Event<Key>>, w: Window, ok: bool) {
      events != [] && events[0] == Begun(RawKey(role), w.now) && Ended(RawKey(role), w.later, ok) in events
    }

    /** One path: skipped if its breaker is open, else called; then other threads act. */
    method TryPath(role: Role, ok: bool, w: Window)
      returns (tried: Tried, ghost events: seq<Event<Key>>)
      requires Valid() && latest <= w.now && w.Ordered()
      modifies this
      ensures Valid() && latest <= w.last && fallbacks == old(fallbacks) && trace == old(trace) + events
      ensures tried == if WasOpen(role, old(trace), w.now) then Skipped else if ok then Succeeded else Failed
      ensures tried != Skipped ==> Asked(role, events, w, ok)
    {
      var begun := Begin(KeyOf(role), w.now);
      if !begun {
        events := Interleave(w.after, w.last);
        return Skipped, events;
      }
      events := Run(KeyOf(role), ok, w.during, w.later);
      ghost var others := Interleave(w.after, w.last);
      Associate(old(trace), [Event.Begun(KeyOf(role), w.now)], events, others);
      return if ok then Succeeded else Failed, [Event.Begun(KeyOf(role), w.now)] + events + others;
    }

    /** One fallback more for this role's path. */
    function OneMore(counts: map<Key, nat>, role: Role): map<Key, nat> {
      counts[RawKey(role) := 1 + (if RawKey(role) in counts then counts[RawKey(role)] else 0)]
    }

    method CountFallback(role: Role)
      requires Valid()
      modifies this`fallbacks
      ensures Valid()
      ensures fallbacks == OneMore(old(fallbacks), role)
    {
      var key := KeyOf(role);
      fallbacks := fallbacks[key := 1 + (if key in fallbacks then fallbacks[key] else 0)];
    }

    /** The error is always about the primary path; the other path is asked only if it is configured differently
        and the primary path was open or failed; its success counts one fallback. `first` and `second` are the
        events of the two attempts, other threads' included. */
    method CallClassification(primary: Role, succeeds: Role -> bool, w0: Window, w1: Window)
      returns (outcome: Outcome, ghost first: seq<Event<Key>>, ghost second: seq<Event<Key>>)
      requires Valid() && primary != Generation
      requires latest <= w0.now && w0.Ordered() && w0.last <= w1.now && w1.Ordered()
      modifies this
      ensures Valid() && trace == old(trace) + first + second
      ensures var other := if primary == Fast then Deep else Fast;
        var open0, open1 := WasOpen(primary, old(trace), w0.now), WasOpen(other, old(trace) + first, w1.now);
        && (!open0 && succeeds(primary) ==> outcome == Parsed(primary))
        && ((open0 || !succeeds(primary)) && fast != deep && !open1 && succeeds(other) ==> outcome == Parsed(other))
        && ((open0 || !succeeds(primary)) && (fast == deep || open1 || !succeeds(other)) ==>
              outcome == Raised(if open0 then CircuitOpen(primary) else CallFailed(primary)))
        && (!open0 ==> Asked(primary, first, w0, succeeds(primary)))
        && (second != [] && !open1 ==> Asked(other, second, w1, succeeds(other)))
      ensures fallbacks == if outcome != Parsed(if primary == Fast then Deep else Fast) then old(fallbacks)
                           else OneMore(old(fallbacks), if primary == Fast then Deep else Fast)
    {
      ghost var other := if primary == Fast then Deep else Fast;
      assert Other(primary) == other && (PathOf(other) == PathOf(primary) <==> fast == deep);
      var firstError := None;
      var index := 0;
      first, second := [], [];
      ghost var open0, open1 := WasOpen(primary, trace, w0.now), false;
      while index < 2
        invariant 0 <= index <= 2 && Valid() && fallbacks == old(fallbacks)
        invariant index == 0 ==> first == [] && latest <= w0.now && firstError.None?
        invariant index == 1 ==> latest <= w1.now
        invariant trace == old(trace) + first + second && (index < 2 ==> second == [])
        invariant index > 0 ==> (open0 || !succeeds(primary))
        invariant index > 0 ==> firstError == Some(if open0 then CircuitOpen(primary) else CallFailed(primary))
        invariant index > 0 && !open0 ==> Asked(primary, first, w0, succeeds(primary))
        invariant index == 2 && !open1 ==> Asked(other, second, w1, succeeds(other))
        invariant index == 2 ==>
          open1 == WasOpen(other, old(trace) + first, w1.now) && (open1 || !succeeds(other))
      {
        var role := if index == 0 then primary else Other(primary);
        if index == 1 && PathOf(role) == PathOf(primary) { break; }
        assert trace == old(trace) + first;
        var tried;
        ghost var events;
        tried, events := TryPath(role, succeeds(role), if index == 0 then w0 else w1);
        if index == 0 { first := events; } else { second, open1 := events, tried == Skipped; }
        if tried == Succeeded {
          if index == 1 { CountFallback(role); }
          return Parsed(role), first, second;
        }
        if firstError.None? { firstError := Some(if tried == Skipped then CircuitOpen(role) else CallFailed(role)); }
        index := index + 1;
      }
      return Raised(firstError.value), first, second;
    }
  }
}
