/** Admission of lobby chat: attempts, blocks, duplicates, and the rate per second. Times are
    milliseconds of the server's clock. */
module ChatLimits {
  import opened Domain
  import opened EventRegistry

  type UserID = nat

  const PER_SECOND: nat := 3
  const ATTEMPTS: nat := 15
  const SECOND: int := 1000
  const ATTEMPT_WINDOW: int := 5000
  const DUPLICATE_WINDOW: int := 5000
  const BLOCK: int := 60000
  const LOBBY: RoomID := 1

  datatype Reason = Blocked | Duplicate | RateLimited

  datatype Verdict = Accepted(sequence: nat) | Rejected(reason: Reason) | ClockBackwards | NoSequence

  /** What the room keeps about one user; a time that was never set is None. */
  datatype ChatUser = ChatUser(
    attempts: seq<int>, accepted: seq<int>, blockedUntil: Option<int>,
    lastText: string, lastAcceptedAt: Option<int>, lastObservedAt: Option<int>)

  const NEW_USER := ChatUser([], [], None, "", None, None)

  /** The timestamps later than the cutoff. */
  function Recent(times: seq<int>, cutoff: int): seq<int> {
    if times == [] then [] else (if times[0] > cutoff then [times[0]] else []) + Recent(times[1..], cutoff)
  }

  /** The decision about one message; `next` is the number it gets if a sequence can still be issued. */
  function Admit(u: ChatUser, text: string, now: int, next: Option<nat>): (ChatUser, Verdict) {
    if u.lastObservedAt.Some? && now < u.lastObservedAt.value then (u, ClockBackwards)
    else
      var seen := u.(lastObservedAt := Some(now));
      if u.blockedUntil.Some? && now < u.blockedUntil.value then (seen, Rejected(Blocked))
      else
        var tried := seen.(attempts := Recent(u.attempts, now - ATTEMPT_WINDOW) + [now]);
        if |tried.attempts| > ATTEMPTS then (tried.(blockedUntil := Some(now + BLOCK)), Rejected(Blocked))
        else if text == u.lastText && u.lastAcceptedAt.Some? && now - u.lastAcceptedAt.value < DUPLICATE_WINDOW then
          (tried, Rejected(Duplicate))
        else
          var cut := tried.(accepted := Recent(u.accepted, now - SECOND));
          if |cut.accepted| >= PER_SECOND then (cut, Rejected(RateLimited))
          else
            match next
            case None => (cut, NoSequence)
            case Some(n) =>
              (cut.(accepted := cut.accepted + [now], lastText := text, lastAcceptedAt := Some(now)), Accepted(n))
  }

  predicate Sorted(times: seq<int>) {
    forall i, j :: 0 <= i <= j < |times| ==> times[i] <= times[j]
  }

  lemma {:induction false} RecentConcat(a: seq<int>, b: seq<int>, cutoff: int)
    ensures Recent(a + b, cutoff) == Recent(a, cutoff) + Recent(b, cutoff)
  {
    if a == [] {
      assert a + b == b;
    } else {
      assert (a + b)[1..] == a[1..] + b;
      RecentConcat(a[1..], b, cutoff);
    }
  }

  lemma {:induction false} RecentOfRecent(times: seq<int>, early: int, late: int)
    requires early <= late
    ensures Recent(Recent(times, early), late) == Recent(times, late)
  {
    if times != [] {
      RecentOfRecent(times[1..], early, late);
      RecentConcat(if times[0] > early then [times[0]] else [], Recent(times[1..], early), late);
    }
  }

  /** Sorted times that follow the cutoff are all kept. */
  lemma {:induction false} RecentKeepsAll(times: seq<int>, cutoff: int)
    requires forall i :: 0 <= i < |times| ==> times[i] > cutoff
    ensures Recent(times, cutoff) == times
  {
    if times != [] {
      RecentKeepsAll(times[1..], cutoff);
    }
  }

  lemma {:induction false} RecentKeepsNone(times: seq<int>, cutoff: int)
    requires forall i :: 0 <= i < |times| ==> times[i] <= cutoff
    ensures Recent(times, cutoff) == []
  {
    if times != [] {
      RecentKeepsNone(times[1..], cutoff);
    }
  }

  lemma {:induction false} RecentAreTimes(times: seq<int>, cutoff: int, t: int)
    requires t in Recent(times, cutoff)
    ensures t in times
  {
    if !(times[0] > cutoff && t == times[0]) {
      assert t in Recent(times[1..], cutoff);
      RecentAreTimes(times[1..], cutoff, t);
    }
  }

  lemma SortedCons(t: int, times: seq<int>)
    requires Sorted(times) && forall x :: x in times ==> t <= x
    ensures Sorted([t] + times)
  {
    assert forall i :: 0 <= i < |times| ==> times[i] in times;
  }

  lemma {:induction false} RecentIsPast(times: seq<int>, cutoff: int)
    requires Sorted(times)
    ensures Sorted(Recent(times, cutoff))
    ensures forall t :: t in Recent(times, cutoff) ==> t in times
  {
    forall t | t in Recent(times, cutoff)
      ensures t in times
    {
      RecentAreTimes(times, cutoff, t);
    }
    if times != [] {
      RecentIsPast(times[1..], cutoff);
      var rest := Recent(times[1..], cutoff);
      forall t | t in rest
        ensures times[0] <= t
      {
        assert t in times[1..];
      }
      SortedCons(times[0], rest);
      assert [] + rest == rest;
    }
  }

  /** Dropping the expired prefix of sorted timestamps is the same as looking at each of them. */
  method TimestampsAfter(times: seq<int>, cutoff: int) returns (r: seq<int>)
    requires Sorted(times)
    ensures r == Recent(times, cutoff)
  {
    var first := 0;
    while first < |times| && times[first] <= cutoff
      invariant first <= |times|
      invariant forall i :: 0 <= i < first ==> times[i] <= cutoff
    {
      first := first + 1;
    }
    r := times[first..];
    assert times == times[..first] + times[first..];
    RecentConcat(times[..first], times[first..], cutoff);
    RecentKeepsNone(times[..first], cutoff);
    RecentKeepsAll(times[first..], cutoff);
  }

  /** The kept timestamps are in order and not ahead of the clock. */
  predicate UserOk(u: ChatUser) {
    && Sorted(u.attempts) && Sorted(u.accepted)
    && (u.lastObservedAt.None? ==> u == NEW_USER)
    && (u.lastObservedAt.Some? ==>
      && (forall t :: t in u.attempts ==> t <= u.lastObservedAt.value)
      && (forall t :: t in u.accepted ==> t <= u.lastObservedAt.value)
      && (u.lastAcceptedAt.Some? ==> u.lastAcceptedAt.value <= u.lastObservedAt.value))
  }

  lemma SortedSnoc(times: seq<int>, now: int)
    requires Sorted(times) && forall t :: t in times ==> t <= now
    ensures Sorted(times + [now]) && forall t :: t in times + [now] ==> t <= now
  {
    assert forall i :: 0 <= i < |times| ==> times[i] in times;
  }

  lemma CutTimes(times: seq<int>, cutoff: int, now: int)
    requires Sorted(times) && forall t :: t in times ==> t <= now
    ensures Sorted(Recent(times, cutoff)) && forall t :: t in Recent(times, cutoff) ==> t <= now
    ensures Sorted(Recent(times, cutoff) + [now]) && forall t :: t in Recent(times, cutoff) + [now] ==> t <= now
  {
    hide Recent, Sorted;
    RecentIsPast(times, cutoff);
    SortedSnoc(Recent(times, cutoff), now);
  }

  lemma AdmitKeepsUser(u: ChatUser, text: string, now: int, next: Option<nat>)
    requires UserOk(u)
    ensures UserOk(Admit(u, text, now, next).0)
  {
    hide Recent, Sorted;
    if Admit(u, text, now, next).1 != ClockBackwards {
      CutTimes(u.attempts, now - ATTEMPT_WINDOW, now);
      CutTimes(u.accepted, now - SECOND, now);
    }
  }

  lemma UserTimesSorted(u: ChatUser)
    requires UserOk(u)
    ensures Sorted(u.attempts) && Sorted(u.accepted)
  {
  }

  lemma NewUserOk()
    ensures UserOk(NEW_USER)
  {
  }

  class LobbyChatRoom {
    const sequences: RoomEventSequences
    var users: map<UserID, ChatUser>

    function User(user: UserID): ChatUser
      reads this
    {
      if user in users then users[user] else NEW_USER
    }

    function NextSequence(): Option<nat>
      reads sequences
    {
      if sequences.Last(LOBBY) == MAX_UINT64 then None else Some(sequences.Last(LOBBY) + 1)
    }

    ghost predicate Valid()
      reads this
    {
      forall user :: user in users ==> UserOk(users[user])
    }

    constructor (sequences: RoomEventSequences)
      ensures Valid() && users == map[] && this.sequences == sequences
    {
      this.sequences := sequences;
      users := map[];
    }

    /** Decides a message against one user's record, updating the record on the way. */
    method Judge(before: ChatUser, text: string, now: int) returns (state: ChatUser, verdict: Verdict)
      requires UserOk(before)
      modifies sequences
      ensures (state, verdict) == Admit(before, text, now, old(NextSequence()))
      ensures sequences.Last(LOBBY) == old(sequences.Last(LOBBY)) + (if verdict.Accepted? then 1 else 0)
    {
      hide Recent, Sorted, UserOk;
      UserTimesSorted(before);
      state := before;
      if state.lastObservedAt.Some? && now < state.lastObservedAt.value {
        return state, ClockBackwards;
      }
      state := state.(lastObservedAt := Some(now));
      if state.blockedUntil.Some? && now < state.blockedUntil.value {
        return state, Rejected(Blocked);
      }
      var attempts := TimestampsAfter(state.attempts, now - ATTEMPT_WINDOW);
      state := state.(attempts := attempts + [now]);
      if |state.attempts| > ATTEMPTS {
        return state.(blockedUntil := Some(now + BLOCK)), Rejected(Blocked);
      }
      if text == state.lastText && state.lastAcceptedAt.Some? && now - state.lastAcceptedAt.value < DUPLICATE_WINDOW {
        return state, Rejected(Duplicate);
      }
      var accepted := TimestampsAfter(state.accepted, now - SECOND);
      state := state.(accepted := accepted);
      if |state.accepted| >= PER_SECOND {
        return state, Rejected(RateLimited);
      }
      var sequence := sequences.CommitNext(LOBBY);
      if sequence.Err? {
        return state, NoSequence;
      }
      state := state.(accepted := state.accepted + [now], lastText := text, lastAcceptedAt := Some(now));
      return state, Accepted(sequence.value);
    }

    /** Decides a message of one user; other users are untouched, and only an acceptance takes a number. */
    method Execute(user: UserID, text: string, now: int) returns (verdict: Verdict)
      requires Valid()
      modifies this, sequences
      ensures Valid()
      ensures (User(user), verdict) == Admit(old(User(user)), text, now, old(NextSequence()))
      ensures forall other :: other != user ==>
        (other in users <==> other in old(users)) && User(other) == old(User(other))
      ensures sequences.Last(LOBBY) == old(sequences.Last(LOBBY)) + (if verdict.Accepted? then 1 else 0)
    {
      hide Recent, Sorted, UserOk, Admit;
      NewUserOk();
      var state := if user in users then users[user] else NEW_USER;
      AdmitKeepsUser(state, text, now, NextSequence());
      state, verdict := Judge(state, text, now);
      users := users[user := state];
    }
  }

  // ----- What every history of one user's messages keeps -----

  datatype Message = Message(text: string, at: int, next: Option<nat>)

  datatype Said = Said(text: string, at: int)

  function Converse(u: ChatUser, messages: seq<Message>): ChatUser
    decreases |messages|
  {
    if messages == [] then u
    else Converse(Admit(u, messages[0].text, messages[0].at, messages[0].next).0, messages[1..])
  }

  /** The accepted messages, in order. */
  function Spoken(u: ChatUser, messages: seq<Message>): seq<Said>
    decreases |messages|
  {
    if messages == [] then []
    else
      var (after, verdict) := Admit(u, messages[0].text, messages[0].at, messages[0].next);
      (if verdict.Accepted? then [Said(messages[0].text, messages[0].at)] else []) + Spoken(after, messages[1..])
  }

  function Times(said: seq<Said>): (times: seq<int>)
    ensures |times| == |said| && forall i :: 0 <= i < |said| ==> times[i] == said[i].at
  {
    seq(|said|, i requires 0 <= i < |said| => said[i].at)
  }

  /** The limits on accepted messages: a fourth one is a second after the first, and a repetition of the
      message before it is five seconds after it. */
  ghost predicate WithinLimits(said: seq<Said>) {
    && Sorted(Times(said))
    && (forall i :: 0 <= i < |said| - PER_SECOND ==> said[i + PER_SECOND].at >= said[i].at + SECOND)
    && forall i :: 0 <= i < |said| - 1 && said[i].text == said[i + 1].text ==>
      said[i + 1].at >= said[i].at + DUPLICATE_WINDOW
  }

  /** The user's state remembers what the limits need about the accepted messages. */
  ghost predicate Remembers(u: ChatUser, said: seq<Said>) {
    && (u.lastObservedAt.None? ==> said == [])
    && (said == [] ==> u.lastAcceptedAt == None)
    && (said != [] ==>
      u.lastText == said[|said| - 1].text && u.lastAcceptedAt == Some(said[|said| - 1].at)
      && u.lastObservedAt.Some? && said[|said| - 1].at <= u.lastObservedAt.value)
    && (u.lastObservedAt.Some? ==> forall cutoff :: cutoff >= u.lastObservedAt.value - SECOND ==>
      Recent(u.accepted, cutoff) == Recent(Times(said), cutoff))
    && (u.lastObservedAt.None? ==> u.accepted == [])
  }

  /** If all but few accepted times are old, the time that many places back is old. */
  lemma FewRecent(times: seq<int>, cutoff: int, k: nat)
    requires Sorted(times) && k < |times| && times[k] > cutoff
    ensures |Recent(times, cutoff)| >= |times| - k
  {
    assert times == times[..k] + times[k..];
    RecentConcat(times[..k], times[k..], cutoff);
    forall i | 0 <= i < |times[k..]|
      ensures times[k..][i] > cutoff
    {
      assert times[k] <= times[k + i];
    }
    RecentKeepsAll(times[k..], cutoff);
  }

  lemma AdmitRemembers(u: ChatUser, m: Message, said: seq<Said>)
    requires UserOk(u) && Remembers(u, said) && WithinLimits(said)
    ensures var (after, verdict) := Admit(u, m.text, m.at, m.next);
      var more := if verdict.Accepted? then [Said(m.text, m.at)] else [];
      Remembers(after, said + more) && WithinLimits(said + more)
  {
    hide Recent, UserOk, WithinLimits, Times;
    var (after, verdict) := Admit(u, m.text, m.at, m.next);
    assert said + [] == said;
    if verdict != ClockBackwards {
      KeptTimes(u, m, said);
      if verdict.Accepted? {
        AcceptedWithin(u, m, said);
      }
    }
  }

  /** Cutting the remembered times at the current second loses nothing that can matter later. */
  lemma KeptTimes(u: ChatUser, m: Message, said: seq<Said>)
    requires UserOk(u) && Remembers(u, said) && Admit(u, m.text, m.at, m.next).1 != ClockBackwards
    ensures var (after, verdict) := Admit(u, m.text, m.at, m.next);
      var more := if verdict.Accepted? then [Said(m.text, m.at)] else [];
      forall cutoff :: cutoff >= m.at - SECOND ==> Recent(after.accepted, cutoff) == Recent(Times(said + more), cutoff)
  {
    hide UserOk, Remembers, Recent, Times;
    var (after, verdict) := Admit(u, m.text, m.at, m.next);
    var more := if verdict.Accepted? then [Said(m.text, m.at)] else [];
    TimesSnoc(said, Said(m.text, m.at));
    assert said + [] == said;
    forall cutoff | cutoff >= m.at - SECOND
      ensures Recent(after.accepted, cutoff) == Recent(Times(said + more), cutoff)
    {
      RememberedAt(u, said, m.at, cutoff);
      RecentOfRecent(u.accepted, m.at - SECOND, cutoff);
      RecentConcat(Recent(u.accepted, m.at - SECOND), [m.at], cutoff);
      RecentConcat(Times(said), [m.at], cutoff);
    }
  }

  lemma TimesSnoc(said: seq<Said>, more: Said)
    ensures Times(said + [more]) == Times(said) + [more.at]
  {
  }

  lemma RememberedAt(u: ChatUser, said: seq<Said>, now: int, cutoff: int)
    requires UserOk(u) && Remembers(u, said) && (u.lastObservedAt.Some? ==> u.lastObservedAt.value <= now)
      && cutoff >= now - SECOND
    ensures Recent(u.accepted, cutoff) == Recent(Times(said), cutoff)
  {
    if u.lastObservedAt.None? {
      assert Times([]) == [];
    }
  }

  lemma AcceptedWithin(u: ChatUser, m: Message, said: seq<Said>)
    requires UserOk(u) && Remembers(u, said) && WithinLimits(said) && Admit(u, m.text, m.at, m.next).1.Accepted?
    ensures WithinLimits(said + [Said(m.text, m.at)])
  {
    hide Recent, UserOk;
    RememberedAt(u, said, m.at, m.at - SECOND);
    if |said| >= PER_SECOND && Times(said)[|said| - PER_SECOND] > m.at - SECOND {
      FewRecent(Times(said), m.at - SECOND, |said| - PER_SECOND);
    }
    if said != [] {
      NotBefore(u, m, said);
    }
    SaidGrows(said, Said(m.text, m.at));
  }

  lemma NotBefore(u: ChatUser, m: Message, said: seq<Said>)
    requires UserOk(u) && Remembers(u, said) && Admit(u, m.text, m.at, m.next).1.Accepted? && said != []
    ensures said[|said| - 1].at <= m.at
    ensures said[|said| - 1].text == m.text ==> said[|said| - 1].at + DUPLICATE_WINDOW <= m.at
  {
    hide Recent;
  }

  lemma SaidGrows(said: seq<Said>, m: Said)
    requires WithinLimits(said)
    requires said != [] ==> said[|said| - 1].at <= m.at
    requires said != [] && said[|said| - 1].text == m.text ==> said[|said| - 1].at + DUPLICATE_WINDOW <= m.at
    requires |said| >= PER_SECOND ==> said[|said| - PER_SECOND].at <= m.at - SECOND
    ensures WithinLimits(said + [m])
  {
    var after := said + [m];
    TimesSnoc(said, m);
    assert Sorted(Times(after)) by {
      forall t | t in Times(said)
        ensures t <= m.at
      {
        var i :| 0 <= i < |said| && Times(said)[i] == t;
        assert Times(said)[i] <= Times(said)[|said| - 1];
      }
      SortedSnoc(Times(said), m.at);
    }
    forall i | 0 <= i < |after| - PER_SECOND
      ensures after[i + PER_SECOND].at >= after[i].at + SECOND
    {
      if i + PER_SECOND < |said| {
        assert said[i + PER_SECOND].at >= said[i].at + SECOND;
      }
    }
  }

  lemma {:induction false} ConverseWithin(u: ChatUser, messages: seq<Message>, said: seq<Said>)
    requires UserOk(u) && Remembers(u, said) && WithinLimits(said)
    ensures WithinLimits(said + Spoken(u, messages))
    decreases |messages|
  {
    hide Admit, UserOk, Remembers, WithinLimits;
    if messages == [] {
      assert said + [] == said;
    } else {
      var m := messages[0];
      var (after, verdict) := Admit(u, m.text, m.at, m.next);
      var more := if verdict.Accepted? then [Said(m.text, m.at)] else [];
      AdmitKeepsUser(u, m.text, m.at, m.next);
      AdmitRemembers(u, m, said);
      ConverseWithin(after, messages[1..], said + more);
      assert said + more + Spoken(after, messages[1..]) == said + Spoken(u, messages);
    }
  }

  /** Whatever a user sends, and whatever the clock does, the accepted messages stay within the limits. */
  lemma AcceptedChatIsLimited(messages: seq<Message>)
    ensures WithinLimits(Spoken(NEW_USER, messages))
  {
    assert UserOk(NEW_USER) && Remembers(NEW_USER, []) && WithinLimits([]);
    ConverseWithin(NEW_USER, messages, []);
    assert [] + Spoken(NEW_USER, messages) == Spoken(NEW_USER, messages);
  }

  /** Once blocked, a user says nothing for a minute. */
  lemma {:induction false} BlockedIsSilent(u: ChatUser, messages: seq<Message>, until: int)
    requires u.blockedUntil == Some(until)
    requires forall i :: 0 <= i < |messages| ==> messages[i].at < until
    ensures Spoken(u, messages) == [] && Converse(u, messages).blockedUntil == Some(until)
    decreases |messages|
  {
    if messages != [] {
      var after := Admit(u, messages[0].text, messages[0].at, messages[0].next).0;
      BlockedIsSilent(after, messages[1..], until);
    }
  }

  // ----- When a block starts -----

  /** A message counts as an attempt unless the clock ran backwards or its sender is blocked. */
  predicate Counts(u: ChatUser, m: Message) {
    && (u.lastObservedAt.Some? ==> u.lastObservedAt.value <= m.at)
    && (u.blockedUntil.Some? ==> u.blockedUntil.value <= m.at)
  }

  /** The times of all counted attempts of a history. */
  function Attempts(u: ChatUser, messages: seq<Message>): seq<int>
    decreases |messages|
  {
    if messages == [] then []
    else
      var after := Admit(u, messages[0].text, messages[0].at, messages[0].next).0;
      (if Counts(u, messages[0]) then [messages[0].at] else []) + Attempts(after, messages[1..])
  }

  /** The kept attempts are the counted ones, as far as they can still matter. */
  ghost predicate Tried(u: ChatUser, tried: seq<int>) {
    && (u.lastObservedAt.None? ==> tried == [] && u.attempts == [])
    && (u.lastObservedAt.Some? ==> forall cutoff :: cutoff >= u.lastObservedAt.value - ATTEMPT_WINDOW ==>
      Recent(u.attempts, cutoff) == Recent(tried, cutoff))
  }

  lemma TriedAt(u: ChatUser, tried: seq<int>, now: int, cutoff: int)
    requires Tried(u, tried) && (u.lastObservedAt.Some? ==> u.lastObservedAt.value <= now)
      && cutoff >= now - ATTEMPT_WINDOW
    ensures Recent(u.attempts, cutoff) == Recent(tried, cutoff)
  {
  }

  lemma AttemptsKept(u: ChatUser, m: Message, tried: seq<int>)
    requires Tried(u, tried)
    ensures Tried(Admit(u, m.text, m.at, m.next).0, tried + (if Counts(u, m) then [m.at] else []))
  {
    hide Recent;
    assert tried + [] == tried;
    if u.lastObservedAt.Some? ==> u.lastObservedAt.value <= m.at {
      forall cutoff | cutoff >= m.at - ATTEMPT_WINDOW
        ensures Recent(u.attempts, cutoff) == Recent(tried, cutoff)
        ensures Recent(Recent(u.attempts, m.at - ATTEMPT_WINDOW) + [m.at], cutoff) == Recent(tried + [m.at], cutoff)
      {
        TriedAt(u, tried, m.at, cutoff);
        RecentOfRecent(u.attempts, m.at - ATTEMPT_WINDOW, cutoff);
        RecentConcat(Recent(u.attempts, m.at - ATTEMPT_WINDOW), [m.at], cutoff);
        RecentConcat(tried, [m.at], cutoff);
      }
    }
  }

  lemma {:induction false} ConverseTried(u: ChatUser, messages: seq<Message>, tried: seq<int>)
    requires Tried(u, tried)
    ensures Tried(Converse(u, messages), tried + Attempts(u, messages))
    decreases |messages|
  {
    hide Admit, Tried, Counts;
    if messages == [] {
      assert tried + [] == tried;
    } else {
      var m := messages[0];
      var after := Admit(u, m.text, m.at, m.next).0;
      var more := if Counts(u, m) then [m.at] else [];
      AttemptsKept(u, m, tried);
      ConverseTried(after, messages[1..], tried + more);
      assert tried + more + Attempts(after, messages[1..]) == tried + Attempts(u, messages);
    }
  }

  /** After any history, a counted message is refused as blocked exactly when fifteen other attempts were
      counted in the last five seconds; the sender is then blocked for a minute, and otherwise not. */
  lemma BlockStartsExactly(messages: seq<Message>, m: Message)
    requires Counts(Converse(NEW_USER, messages), m)
    ensures var u := Converse(NEW_USER, messages);
      var (after, verdict) := Admit(u, m.text, m.at, m.next);
      if |Recent(Attempts(NEW_USER, messages), m.at - ATTEMPT_WINDOW)| >= ATTEMPTS
      then verdict == Rejected(Blocked) && after.blockedUntil == Some(m.at + BLOCK)
      else verdict != Rejected(Blocked) && after.blockedUntil == u.blockedUntil
  {
    hide Recent, Converse, Attempts;
    assert Tried(NEW_USER, []);
    ConverseTried(NEW_USER, messages, []);
    assert [] + Attempts(NEW_USER, messages) == Attempts(NEW_USER, messages);
    TriedAt(Converse(NEW_USER, messages), Attempts(NEW_USER, messages), m.at, m.at - ATTEMPT_WINDOW);
  }

  // ----- The exact verdict -----

  lemma {:induction false} ConverseRemembers(u: ChatUser, messages: seq<Message>, said: seq<Said>)
    requires UserOk(u) && Remembers(u, said) && WithinLimits(said)
    ensures UserOk(Converse(u, messages)) && Remembers(Converse(u, messages), said + Spoken(u, messages))
    decreases |messages|
  {
    hide Admit, UserOk, Remembers, WithinLimits;
    if messages == [] {
      assert said + [] == said;
    } else {
      var m := messages[0];
      var (after, verdict) := Admit(u, m.text, m.at, m.next);
      var more := if verdict.Accepted? then [Said(m.text, m.at)] else [];
      AdmitKeepsUser(u, m.text, m.at, m.next);
      AdmitRemembers(u, m, said);
      ConverseRemembers(after, messages[1..], said + more);
      assert said + more + Spoken(after, messages[1..]) == said + Spoken(u, messages);
    }
  }

  /** The verdict on a counted message of a user whose attempts are not used up, told from what the user said
      before: a repetition within five seconds of the last accepted message is a duplicate, a fourth message
      within a second is over the rate, and anything else is accepted if a number is left for it. */
  lemma VerdictExactly(messages: seq<Message>, m: Message)
    requires Counts(Converse(NEW_USER, messages), m)
    requires |Recent(Attempts(NEW_USER, messages), m.at - ATTEMPT_WINDOW)| < ATTEMPTS
    ensures var said := Spoken(NEW_USER, messages);
      var verdict := Admit(Converse(NEW_USER, messages), m.text, m.at, m.next).1;
      verdict ==
        if said != [] && said[|said| - 1].text == m.text && m.at - said[|said| - 1].at < DUPLICATE_WINDOW then
          Rejected(Duplicate)
        else if |Recent(Times(said), m.at - SECOND)| >= PER_SECOND then Rejected(RateLimited)
        else if m.next == None then NoSequence
        else Accepted(m.next.value)
  {
    hide Recent, Converse, Attempts, Spoken, UserOk;
    BlockStartsExactly(messages, m);
    NewRemembers();
    ConverseRemembers(NEW_USER, messages, []);
    assert [] + Spoken(NEW_USER, messages) == Spoken(NEW_USER, messages);
    var u := Converse(NEW_USER, messages);
    RememberedAt(u, Spoken(NEW_USER, messages), m.at, m.at - SECOND);
  }

  lemma NewRemembers()
    ensures UserOk(NEW_USER) && Remembers(NEW_USER, []) && WithinLimits([])
  {
  }

  /** A message before the last one observed changes nothing; a message during a block is refused. */
  lemma OthersRefused(messages: seq<Message>, m: Message)
    requires !Counts(Converse(NEW_USER, messages), m)
    ensures var u := Converse(NEW_USER, messages);
      var (after, verdict) := Admit(u, m.text, m.at, m.next);
      if u.lastObservedAt.Some? && m.at < u.lastObservedAt.value then verdict == ClockBackwards && after == u
      else verdict == Rejected(Blocked) && after == u.(lastObservedAt := Some(m.at))
  {
    hide Recent, Converse;
  }

  /** The clock of a user is the latest time observed. */
  lemma {:induction false} ObservedExactly(u: ChatUser, messages: seq<Message>)
    ensures var last := Converse(u, messages).lastObservedAt;
      && (u.lastObservedAt.Some? ==> last.Some? && u.lastObservedAt.value <= last.value)
      && (forall i :: 0 <= i < |messages| ==> last.Some? && messages[i].at <= last.value)
      && (last.Some? ==> last == u.lastObservedAt || exists i :: 0 <= i < |messages| && messages[i].at == last.value)
    decreases |messages|
  {
    hide Recent;
    if messages != [] {
      var after := Admit(u, messages[0].text, messages[0].at, messages[0].next).0;
      ObservedExactly(after, messages[1..]);
      var last := Converse(u, messages).lastObservedAt;
      assert forall i :: 0 < i < |messages| ==> messages[i] == messages[1..][i - 1];
      if last != u.lastObservedAt && last == after.lastObservedAt {
        assert messages[0].at == last.value;
      }
      if i :| 0 <= i < |messages[1..]| && messages[1..][i].at == last.value {
        assert messages[i + 1].at == last.value;
      }
    }
  }
}
