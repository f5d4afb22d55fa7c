/** An allocator with a byte budget, counted in unsigned 64-bit arithmetic that wraps around. */
module Allocator {
  import opened Words

  type Length = n: nat | n < HALF

  type Word = n: nat | n < WORD

  function ToWord(n: int): Word {
    n % WORD
  }

  datatype Outcome = Granted | LimitError(request: Word, inuse: Word, limit: Word) | MemoryPanics

  /** The counter, and the lengths of the buffers that callers hold. */
  datatype State = State(inuse: Word, live: seq<Length>)

  /** Calls by holders of live buffers; the wrapped allocator may panic on any of them. */
  datatype Call =
    | Allocate(size: Int64, panics: bool)
    | Reallocate(buffer: nat, size: Int64, panics: bool)
    | Free(buffer: nat, panics: bool)

  function Held(live: seq<Length>): nat {
    if live == [] then 0 else live[0] + Held(live[1..])
  }

  predicate Possible(s: State, c: Call) {
    !c.Allocate? ==> c.buffer < |s.live|
  }

  /** How much more memory a call asks for. */
  function Change(s: State, c: Call): int
    requires Possible(s, c)
  {
    match c
    case Allocate(size, _) => size
    case Reallocate(b, size, _) => size - s.live[b]
    case Free(b, _) =>
      var held: int := s.live[b];
      -held
  }

  /** The wrapped allocator makes no buffer of negative length. */
  predicate MemoryRefuses(c: Call) {
    c.panics || (!c.Free? && c.size < 0)
  }

  function Without(live: seq<Length>, i: nat): seq<Length>
    requires i < |live|
  {
    live[..i] + live[i + 1..]
  }

  function NextLive(s: State, c: Call): seq<Length>
    requires Possible(s, c) && !MemoryRefuses(c)
  {
    match c
    case Allocate(size, _) => s.live + [size]
    case Reallocate(b, size, _) => s.live[b := size]
    case Free(b, _) => Without(s.live, b)
  }

  function Step(s: State, limit: Word, c: Call): (State, Outcome)
    requires Possible(s, c)
  {
    var change := ToWord(Change(s, c));
    if !c.Free? && ToWord(s.inuse + change) > limit then (s, LimitError(change, s.inuse, limit))
    else if MemoryRefuses(c) then (s, MemoryPanics)
    else (State(ToWord(s.inuse + change), NextLive(s, c)), Granted)
  }

  /** One call at any limit, in plain numbers: refused when the wrapped total is over the limit, with the
      unsigned request, the bytes in use and the limit; otherwise up to the wrapped allocator. */
  lemma StepMeaning(s: State, limit: Word, c: Call)
    requires Possible(s, c)
    ensures var (next, out) := Step(s, limit, c);
      var total := s.inuse + Change(s, c);
      var wrapped := if total < 0 then total + WORD else if total >= WORD then total - WORD else total;
      && (out.LimitError? <==> !c.Free? && wrapped > limit)
      && (out.LimitError? ==>
            && out.request == Change(s, c) + (if Change(s, c) < 0 then WORD else 0)
            && out.inuse == s.inuse && out.limit == limit)
      && (out.MemoryPanics? <==> !out.LimitError? && (c.panics || (!c.Free? && c.size < 0)))
      && (out.Granted? ==> next.inuse == wrapped)
      && (!out.Granted? ==> next == s)
  {
    var change := Change(s, c);
    Wraps(change);
    Wraps(s.inuse + ToWord(change));
  }

  predicate PossibleRun(s: State, limit: Word, calls: seq<Call>)
    decreases calls
  {
    calls == [] || (Possible(s, calls[0]) && PossibleRun(Step(s, limit, calls[0]).0, limit, calls[1..]))
  }

  function Run(s: State, limit: Word, calls: seq<Call>): State
    requires PossibleRun(s, limit, calls)
    decreases calls
  {
    if calls == [] then s else Run(Step(s, limit, calls[0]).0, limit, calls[1..])
  }

  /** The counter is what callers hold, and within the budget. */
  predicate Accounts(s: State, limit: Word) {
    s.inuse == Held(s.live) <= limit
  }

  lemma {:induction false} SumAppend(a: seq<Length>, b: seq<Length>)
    ensures Held(a + b) == Held(a) + Held(b)
  {
    if a == [] {
      assert a + b == b;
    } else {
      SumAppend(a[1..], b);
      assert (a + b)[1..] == a[1..] + b;
    }
  }

  lemma SumSplit(live: seq<Length>, i: nat)
    requires i < |live|
    ensures Held(live) == Held(live[..i]) + live[i] + Held(live[i + 1..])
  {
    SumAppend(live[..i], live[i..]);
    assert live == live[..i] + live[i..];
    assert live[i..][0] == live[i] && live[i..][1..] == live[i + 1..];
  }

  /** Granting a call changes what callers hold by exactly what it asked for. */
  lemma NextLiveHeld(s: State, c: Call)
    requires Possible(s, c) && !MemoryRefuses(c)
    ensures Held(NextLive(s, c)) == Held(s.live) + Change(s, c)
  {
    match c
    case Allocate(size, _) =>
      SumAppend(s.live, [size]);
      assert Held([size]) == size + Held([]);
    case Reallocate(b, size, _) =>
      SumSplit(s.live, b);
      SumSplit(s.live[b := size], b);
      assert s.live[b := size][..b] == s.live[..b] && s.live[b := size][b + 1..] == s.live[b + 1..];
    case Free(b, _) =>
      SumSplit(s.live, b);
      SumAppend(s.live[..b], s.live[b + 1..]);
  }

  lemma Wraps(n: int)
    ensures 0 <= n < WORD ==> ToWord(n) == n
    ensures -WORD <= n < 0 ==> ToWord(n) == n + WORD
    ensures WORD <= n < 2 * WORD ==> ToWord(n) == n - WORD
  {
  }

  /** Adding a wrapped change is adding the change, as long as the sum fits in a word. */
  lemma AddWrapped(inuse: Word, change: int)
    requires -WORD < change < WORD
    ensures 0 <= inuse + change < WORD ==> ToWord(inuse + ToWord(change)) == inuse + change
    ensures inuse + change < 0 ==> ToWord(inuse + ToWord(change)) == inuse + change + WORD
  {
    Wraps(change);
    Wraps(inuse + ToWord(change));
  }

  /** Up to half the word range one call keeps the books and is refused exactly when the memory held
      after it would exceed the budget; a refusal or a panic changes nothing. */
  lemma StepAccounts(s: State, limit: Word, c: Call)
    requires limit <= HALF && Accounts(s, limit) && Possible(s, c)
    ensures var (next, out) := Step(s, limit, c);
      && Accounts(next, limit)
      && (!out.Granted? ==> next == s)
      && (out.Granted? ==> !MemoryRefuses(c) && next.live == NextLive(s, c))
      && (!c.Free? && c.size >= 0 ==> (out.LimitError? <==> Held(s.live) + Change(s, c) > limit))
      && (c.Free? ==> (out.Granted? <==> !c.panics))
  {
    var change := Change(s, c);
    if !c.Allocate? {
      SumSplit(s.live, c.buffer);
    }
    AddWrapped(s.inuse, change);
    if !MemoryRefuses(c) {
      NextLiveHeld(s, c);
    }
    hide ToWord, Held, NextLive;
  }

  lemma {:induction false} RunAccounts(s: State, limit: Word, calls: seq<Call>)
    requires limit <= HALF && Accounts(s, limit) && PossibleRun(s, limit, calls)
    ensures Accounts(Run(s, limit, calls), limit)
    decreases calls
  {
    if calls != [] {
      StepAccounts(s, limit, calls[0]);
      RunAccounts(Step(s, limit, calls[0]).0, limit, calls[1..]);
    }
  }

  /** Whatever callers do, starting with nothing allocated, the counter tells the truth. */
  ghost predicate AlwaysAccounts(limit: Word) {
    forall calls :: PossibleRun(State(0, []), limit, calls) ==> Accounts(Run(State(0, []), limit, calls), limit)
  }

  /** Three calls that together wrap the counter around to zero. */
  function Overflowing(): seq<Call> {
    [Allocate(HALF - 1, false), Allocate(2, false), Allocate(HALF - 1, false)]
  }

  lemma OverflowingRun(limit: Word)
    requires limit > HALF
    ensures PossibleRun(State(0, []), limit, Overflowing())
    ensures Run(State(0, []), limit, Overflowing()) == State(0, [HALF - 1, 2, HALF - 1])
  {
    var s0 := State(0, []);
    var c1, c2 := Allocate(HALF - 1, false), Allocate(2, false);
    var s1, s2, s3 := State(HALF - 1, [HALF - 1]), State(HALF + 1, [HALF - 1, 2]), State(0, [HALF - 1, 2, HALF - 1]);
    Wraps(HALF - 1);
    Wraps(2);
    Wraps(HALF + 1);
    Wraps(WORD);
    assert Step(s0, limit, c1).0 == s1 && Step(s1, limit, c2).0 == s2 && Step(s2, limit, c1).0 == s3;
    hide Step;
    assert Overflowing()[1..] == [c2, c1] && [c2, c1][1..] == [c1] && [c1][1..] == [];
    assert PossibleRun(s3, limit, []) && Run(s3, limit, []) == s3;
    assert PossibleRun(s2, limit, [c1]) && Run(s2, limit, [c1]) == s3;
    assert PossibleRun(s1, limit, [c2, c1]) && Run(s1, limit, [c2, c1]) == s3;
  }

  /** The accounting is right in every reachable state exactly for budgets up to half the word range. */
  lemma AccountsIff(limit: Word)
    ensures AlwaysAccounts(limit) <==> limit <= HALF
  {
    if limit <= HALF {
      forall calls | PossibleRun(State(0, []), limit, calls) ensures Accounts(Run(State(0, []), limit, calls), limit) {
        RunAccounts(State(0, []), limit, calls);
      }
    } else {
      OverflowingRun(limit);
      assert Held([HALF - 1, 2, HALF - 1]) == HALF - 1 + Held([2, HALF - 1]) by {
        assert [HALF - 1, 2, HALF - 1][1..] == [2, HALF - 1];
      }
      assert !Accounts(State(0, [HALF - 1, 2, HALF - 1]), limit);
    }
  }

  class LimitedAllocator {
    var inuse: Word
    const limit: Word
    ghost var live: seq<Length>

    ghost function Snapshot(): State
      reads this
    {
      State(inuse, live)
    }

    constructor (limit: Word)
      ensures this.limit == limit && Snapshot() == State(0, [])
    {
      this.limit := limit;
      inuse, live := 0, [];
    }

    method Allocate(size: Int64, panics: bool) returns (out: Outcome)
      modifies this
      ensures (Snapshot(), out) == Step(old(Snapshot()), limit, Call.Allocate(size, panics))
    {
      var change := ToWord(size);
      if ToWord(inuse + change) > limit {
        return LimitError(change, inuse, limit);
      }
      if panics || size < 0 {
        return MemoryPanics;
      }
      inuse := ToWord(inuse + change);
      live := live + [size];
      out := Granted;
    }

    /** Reallocates the live buffer number `buffer`, whose length is `length`. */
    method Reallocate(size: Int64, ghost buffer: nat, length: Length, panics: bool) returns (out: Outcome)
      requires buffer < |live| && live[buffer] == length
      modifies this
      ensures (Snapshot(), out) == Step(old(Snapshot()), limit, Call.Reallocate(buffer, size, panics))
    {
      var change := ToWord(size - length);
      if ToWord(inuse + change) > limit {
        return LimitError(change, inuse, limit);
      }
      if panics || size < 0 {
        return MemoryPanics;
      }
      inuse := ToWord(inuse + change);
      live := live[buffer := size];
      out := Granted;
    }

    method Free(ghost buffer: nat, length: Length, panics: bool) returns (out: Outcome)
      requires buffer < |live| && live[buffer] == length
      modifies this
      ensures (Snapshot(), out) == Step(old(Snapshot()), limit, Call.Free(buffer, panics))
    {
      if panics {
        return MemoryPanics;
      }
      SubtractWrapped(inuse, length);
      inuse := ToWord(inuse - length);
      live := Without(live, buffer);
      out := Granted;
    }
  }

  lemma SubtractWrapped(inuse: Word, length: Length)
    ensures ToWord(inuse - length) == ToWord(inuse + ToWord(0 - length))
  {
    Wraps(0 - length);
    Wraps(inuse + ToWord(0 - length));
    Wraps(inuse - length);
  }
}
