/** The socket store of src/storage_socket.c: connection, reconnection with exponential
    backoff, and the send loop with one retry. */
module SocketStore {

  const MAX_DURATION_CONNECTION_RETRY := 1800

  // ----- The retry state machine

  /** One attempt of socket_try_reconnect that passed the backoff gate: it failed and drew a
      jitter, or it recovered the connection. */
  datatype Attempt = Failed(time: int, jitter: nat) | Recovered(time: int)

  datatype Retry = Retry(last: int, backoff: int)

  const FRESH := Retry(0, 1)

  predicate Due(r: Retry, now: int) { now - r.last >= r.backoff }

  function NextRetry(r: Retry, a: Attempt): Retry {
    match a
    case Recovered(_) => FRESH
    case Failed(now, jitter) =>
      Retry(now, if r.backoff < MAX_DURATION_CONNECTION_RETRY then r.backoff * 2 + jitter else r.backoff)
  }

  /** The state after a history of attempts. */
  function After(h: seq<Attempt>): Retry {
    if h == [] then FRESH else NextRetry(After(h[..|h| - 1]), h[|h| - 1])
  }

  /** A history that the machine can produce: every attempt was due when it was made, and a
      jitter is a byte modulo 10, or 0. */
  ghost predicate Legal(h: seq<Attempt>) {
    h == [] ||
    var before, a := h[..|h| - 1], h[|h| - 1];
    Legal(before) && Due(After(before), a.time) && (a.Failed? ==> a.jitter < 10)
  }

  lemma HistoryNext(h: seq<Attempt>, a: Attempt)
    requires Legal(h) && Due(After(h), a.time) && (a.Failed? ==> a.jitter < 10)
    ensures Legal(h + [a]) && After(h + [a]) == NextRetry(After(h), a)
  {
    assert (h + [a])[..|h|] == h;
  }

  /** How many failures end the history. */
  function Streak(h: seq<Attempt>): (k: nat)
    ensures k <= |h|
  {
    if h == [] || h[|h| - 1].Recovered? then 0 else 1 + Streak(h[..|h| - 1])
  }

  function Pow2(e: nat): (p: nat)
    ensures p > 0
  {
    if e == 0 then 1 else 2 * Pow2(e - 1)
  }

  /** On every run the backoff stays between one second and twice the last value below the
      threshold plus the largest jitter. */
  lemma {:induction false} BackoffBounds(h: seq<Attempt>)
    requires Legal(h)
    ensures 1 <= After(h).backoff <= 3607
  {
    if h != [] {
      BackoffBounds(h[..|h| - 1]);
    }
  }

  /** One more failure, as early as it is due. */
  lemma FailOnce(h: seq<Attempt>, jitter: nat) returns (h': seq<Attempt>)
    requires Legal(h) && jitter < 10
    ensures Legal(h') && Streak(h') == Streak(h) + 1 && |h'| == |h| + 1
    ensures After(h').backoff == NextRetry(After(h), Failed(0, jitter)).backoff
  {
    h' := h + [Failed(After(h).last + After(h).backoff, jitter)];
    assert h'[..|h'| - 1] == h;
  }

  /** The upper bound is reached: nine failures can leave a backoff of 3607 seconds, twice the
      threshold of 1800. */
  lemma MaximumIsReached() returns (h: seq<Attempt>)
    ensures Legal(h) && Streak(h) == |h| == 9
    ensures After(h).backoff == 3607
  {
    h := FailOnce([], 4);
    h := FailOnce(h, 8);
    h := FailOnce(h, 8);
    h := FailOnce(h, 8);
    h := FailOnce(h, 9);
    h := FailOnce(h, 9);
    h := FailOnce(h, 9);
    h := FailOnce(h, 9);
    h := FailOnce(h, 9);
  }

  /** k failures in a row, the last of them from below the threshold, leave a backoff between
      2^k and 10 * 2^k - 9. */
  lemma {:induction false} BackoffDoubles(h: seq<Attempt>)
    requires Legal(h)
    requires Streak(h) > 0 ==> After(h[..|h| - 1]).backoff < MAX_DURATION_CONNECTION_RETRY
    ensures Pow2(Streak(h)) <= After(h).backoff <= 10 * Pow2(Streak(h)) - 9
  {
    if Streak(h) > 0 {
      var before := h[..|h| - 1];
      if Streak(before) > 0 {
        BackoffGrows(before);
      }
      BackoffDoubles(before);
    } else if h != [] {
      assert After(h) == FRESH;
    }
  }

  /** A failure never shortens the backoff. */
  lemma BackoffGrows(h: seq<Attempt>)
    requires Legal(h) && h != [] && h[|h| - 1].Failed?
    ensures After(h[..|h| - 1]).backoff <= After(h).backoff
  {
    BackoffBounds(h[..|h| - 1]);
  }

  /** From the 11th failure in a row on, the backoff has reached the threshold and a further
      failure does not change it. */
  lemma {:induction false} BackoffSettles(h: seq<Attempt>)
    requires Legal(h) && Streak(h) >= 11
    ensures After(h).backoff >= MAX_DURATION_CONNECTION_RETRY
    ensures forall time, jitter :: NextRetry(After(h), Failed(time, jitter)).backoff == After(h).backoff
  {
    var before := h[..|h| - 1];
    BackoffGrows(h);
    if After(before).backoff < MAX_DURATION_CONNECTION_RETRY {
      BackoffDoubles(h);
      Pow2Monotone(11, Streak(h));
      assert Pow2(8) == 256;
    }
  }

  lemma {:induction false} Pow2Monotone(a: nat, b: nat)
    requires a <= b
    ensures Pow2(a) <= Pow2(b)
  {
    if a < b {
      Pow2Monotone(a, b - 1);
    }
  }

  lemma {:induction false} FewFailuresStayBelow(h: seq<Attempt>)
    requires Legal(h) && Streak(h) <= 7
    ensures After(h).backoff <= 10 * Pow2(Streak(h)) - 9 <= MAX_DURATION_CONNECTION_RETRY
  {
    if Streak(h) > 0 {
      FewFailuresStayBelow(h[..|h| - 1]);
    } else if h != [] {
      assert After(h) == FRESH;
    }
    Pow2Monotone(Streak(h), 7);
    assert Pow2(7) == 128 by { assert Pow2(4) == 16; }
  }

  /** Eight failures that draw a jitter of 9 exceed the threshold, and no further failure goes
      back below it. */
  lemma {:induction false} ManyFailuresExceed(k: nat) returns (h: seq<Attempt>)
    requires k >= 8
    ensures Legal(h) && Streak(h) == k && After(h).backoff > MAX_DURATION_CONNECTION_RETRY
  {
    if k == 8 {
      h := FailOnce([], 9);
      h := FailOnce(h, 9);
      h := FailOnce(h, 9);
      h := FailOnce(h, 9);
      h := FailOnce(h, 9);
      h := FailOnce(h, 9);
      h := FailOnce(h, 9);
      h := FailOnce(h, 9);
    } else {
      h := ManyFailuresExceed(k - 1);
      h := FailOnce(h, 0);
    }
  }

  ghost predicate WithinDocumented(h: seq<Attempt>) { After(h).backoff <= 1800 }

  /** The documented maximum is respected, whatever jitter is drawn, exactly as long as at most
      seven attempts in a row have failed. */
  lemma DocumentedMaximum(k: nat)
    ensures (forall h :: Legal(h) && Streak(h) == k ==> WithinDocumented(h)) <==> k <= 7
  {
    if k <= 7 {
      forall h | Legal(h) && Streak(h) == k
        ensures WithinDocumented(h)
      {
        FewFailuresStayBelow(h);
      }
    } else {
      var h := ManyFailuresExceed(k);
      assert !WithinDocumented(h);
    }
  }

  /** The sum of the backoffs in force between the failures of the last streak. */
  function Waited(h: seq<Attempt>): int {
    if Streak(h) <= 1 then 0 else Waited(h[..|h| - 1]) + After(h[..|h| - 1]).backoff
  }

  /** The time of the first failure of the last streak. */
  function StreakStart(h: seq<Attempt>): int
    requires Streak(h) > 0
  {
    h[|h| - Streak(h)].time
  }

  lemma {:induction false} StreakShape(h: seq<Attempt>)
    requires Streak(h) > 1
    ensures Streak(h[..|h| - 1]) == Streak(h) - 1 && StreakStart(h[..|h| - 1]) == StreakStart(h)
    ensures After(h).last == h[|h| - 1].time
  {}

  /** Failed attempts are at least the backoff in force apart, so a streak of failures lasts at
      least the sum of its backoffs. */
  lemma {:induction false} StreakLasts(h: seq<Attempt>)
    requires Legal(h) && Streak(h) > 0
    ensures After(h).last - StreakStart(h) >= Waited(h)
  {
    if Streak(h) > 1 {
      StreakShape(h);
      StreakLasts(h[..|h| - 1]);
    }
  }

  /** In particular k failures in a row, the last from below the threshold, take at least 2^k - 2 seconds. */
  lemma {:induction false} StreakLastsLong(h: seq<Attempt>)
    requires Legal(h) && 0 < Streak(h)
    requires After(h[..|h| - 1]).backoff < MAX_DURATION_CONNECTION_RETRY
    ensures Waited(h) >= Pow2(Streak(h)) - 2
  {
    if Streak(h) > 1 {
      var before := h[..|h| - 1];
      StreakShape(h);
      BackoffGrows(before);
      BackoffDoubles(before);
      StreakLastsLong(before);
    }
  }

  // ----- The descriptors of the store

  lemma {:induction false} FreshNumber(s: set<int>) returns (n: int)
    ensures n >= 0 && n !in s && forall x :: x in s ==> x < n
  {
    n := 0;
    if exists x: int :: x in s {
      var x: int :| x in s;
      var rest := s - {x};
      var m := FreshNumber(rest);
      n := if x < m then m else x + 1;
      forall y | y in s
        ensures y < n
      {
        assert y == x || y in rest;
      }
    }
  }

  /** The kernel side: the descriptors that the store holds, and how many it ever asked for,
      created and closed; those that are connected; what every lookup of the endpoint found, the
      outcome of every send, every time read and every random byte drawn. Only an open descriptor
      can be closed or connected, and only a connected one sent to. */
  class Kernel {
    var open: set<int>
    ghost var connected: set<int>
    ghost var asked: nat
    ghost var created: nat
    ghost var closed: nat
    ghost var lookups: seq<nat>
    ghost var sends: seq<bool>
    ghost var times: seq<int>
    ghost var draws: seq<int>

    constructor ()
      ensures open == connected == {} && created == closed == 0 && sends == []
    {
      open, connected, asked, created, closed := {}, {}, 0, 0, 0;
      lookups, sends, times, draws := [], [], [], [];
    }

    method Time() returns (now: int)
      modifies this`times
      ensures times == old(times) + [now]
    {
      now := *;
      times := times + [now];
    }

    /** A random byte, or -1 for none. */
    method GetRandom() returns (byte: int)
      modifies this`draws
      ensures -1 <= byte < 256 && draws == old(draws) + [byte]
    {
      byte :| -1 <= byte < 256;
      draws := draws + [byte];
    }

    /** How many addresses the name resolves to; none if it does not. */
    method Resolve() returns (addresses: nat)
      modifies this`lookups
      ensures lookups == old(lookups) + [addresses]
    {
      addresses :| 0 <= addresses;
      lookups := lookups + [addresses];
    }

    method Socket() returns (fd: int)
      modifies this`open, this`asked, this`created
      ensures asked == old(asked) + 1
      ensures fd == -1 ==> open == old(open) && created == old(created)
      ensures fd != -1 ==> fd >= 0 && fd !in old(open) && open == old(open) + {fd} && created == old(created) + 1
    {
      asked := asked + 1;
      var available: bool := *;
      if !available {
        return -1;
      }
      ghost var bound := FreshNumber(open);
      assert bound !in open;
      fd :| fd >= 0 && fd !in open;
      open, created := open + {fd}, created + 1;
    }

    method Close(fd: int)
      requires fd in open
      modifies this`open, this`connected, this`closed
      ensures open == old(open) - {fd} && connected == old(connected) - {fd} && closed == old(closed) + 1
    {
      open, connected, closed := open - {fd}, connected - {fd}, closed + 1;
    }

    method Connect(fd: int) returns (ret: int)
      requires fd in open
      modifies this`connected
      ensures ret == 0 || ret == -1
      ensures connected == if ret == 0 then old(connected) + {fd} else old(connected)
    {
      var accepted: bool := *;
      if !accepted {
        return -1;
      }
      connected := connected + {fd};
      return 0;
    }

    /** A short send counts as a success. */
    method Send(fd: int) returns (nbsend: int)
      requires fd in open && fd in connected
      modifies this`sends
      ensures nbsend >= -1 && sends == old(sends) + [nbsend != -1]
    {
      nbsend :| nbsend >= -1;
      sends := sends + [nbsend != -1];
    }
  }

  /** Below 1800 seconds a failed attempt doubles the backoff and adds the last digit of a random
      byte, if one can be drawn; above, it draws none and leaves the backoff alone. */
  ghost predicate Lengthened(before: int, after: int, draws: seq<int>) {
    if before < 1800 then |draws| == 1 && after == 2 * before + (if draws[0] == -1 then 0 else draws[0] % 10)
    else draws == [] && after == before
  }

  /** One pass through the send loop: the outcomes of its sends and of its reconnections. The first
      send succeeds; or it fails and so does the one reconnection; or the report is sent once more
      over the new connection, with that outcome. */
  ghost predicate Sent(ret: int, sends: seq<bool>, reconnects: seq<bool>) {
    || (sends == [true] && reconnects == [] && ret == 0)
    || (sends == [false] && reconnects == [false] && ret == -1)
    || (sends == [false, true] && reconnects == [true] && ret == 0)
    || (sends == [false, false] && reconnects == [true] && ret == -1)
  }

  /** A whole call: without a connection there is one reconnection first, and if it fails, or the
      document cannot be serialized, nothing is sent. */
  ghost predicate Stored(ret: int, serialized: bool, connected: bool, sends: seq<bool>, reconnects: seq<bool>) {
    var first := if connected then [] else [true];
    || (!connected && sends == [] && reconnects == [false] && ret == -1)
    || (!serialized && sends == [] && reconnects == first && ret == -1)
    || (serialized && first <= reconnects && Sent(ret, sends, reconnects[|first|..]))
  }

  /** What that means: the result is 0 exactly when the last send succeeded; a failed first send is
      followed by exactly one reconnection, and if that succeeds by exactly one more send; -1 means
      that a reconnection failed, or both sends, or the serialization. */
  lemma StoredMeans(ret: int, serialized: bool, connected: bool, sends: seq<bool>, reconnects: seq<bool>)
    requires Stored(ret, serialized, connected, sends, reconnects)
    ensures ret == 0 || ret == -1
    ensures ret == 0 <==> sends != [] && sends[|sends| - 1]
    ensures sends == [] ==> !serialized || (!connected && reconnects == [false])
    ensures sends != [] && !sends[0] ==> reconnects != [] && |sends| == if reconnects[|reconnects| - 1] then 2 else 1
    ensures |reconnects| == (if connected then 0 else 1) + (if sends != [] && !sends[0] then 1 else 0)
    ensures ret == -1 ==> !serialized || (reconnects != [] && !reconnects[|reconnects| - 1]) || sends == [false, false]
  {}

  class SocketStore {
    const kernel: Kernel
    var socketFd: int
    var lastRetryTime: int
    var retryBackoffTime: int
    ghost var history: seq<Attempt>
    ghost var reconnects: seq<bool>

    /** The only descriptor open is the current one, which is connected, everything else that was created has been
        closed, and the retry fields are what the legal history of attempts makes of them. */
    ghost predicate Valid()
      reads this, kernel
    {
      && socketFd >= -1
      && kernel.open == kernel.connected == (if socketFd == -1 then {} else {socketFd})
      && kernel.created == kernel.closed + |kernel.open|
      && Legal(history)
      && Retry(lastRetryTime, retryBackoffTime) == After(history)
    }

    constructor ()
      ensures Valid() && fresh(kernel) && socketFd == -1 && history == []
    {
      kernel := new Kernel();
      socketFd, lastRetryTime, retryBackoffTime := -1, 0, 1;
      history, reconnects := [], [];
    }

    /** One lookup of the endpoint was made; sockets were asked for, for each of its addresses in
        turn, until one could be connected. */
    ghost predicate TriedAll(lookups: seq<nat>, asked: nat, ret: int)
      reads kernel
    {
      && |kernel.lookups| == |lookups| + 1 && kernel.lookups[..|lookups|] == lookups
      && kernel.asked - asked <= kernel.lookups[|lookups|]
      && (ret == -1 ==> kernel.asked - asked == kernel.lookups[|lookups|])
    }

    /** socket_resolve_and_connect: the addresses that the endpoint resolves to are tried in turn;
        every socket whose connection fails is closed. */
    method ResolveAndConnect() returns (ret: int)
      requires Valid() && socketFd == -1
      modifies this`socketFd, kernel`open, kernel`connected, kernel`asked, kernel`created, kernel`closed, kernel`lookups
      ensures Valid()
      ensures ret == if socketFd == -1 then -1 else 0
      ensures TriedAll(old(kernel.lookups), old(kernel.asked), ret)
    {
      var addresses := kernel.Resolve();
      var sfd := -1;
      ret := -1;
      var rp := 0;
      while rp < addresses
        invariant rp <= addresses && ret == -1 && socketFd == -1
        invariant kernel.lookups == old(kernel.lookups) + [addresses] && kernel.asked == old(kernel.asked) + rp
        invariant kernel.open == kernel.connected == {} && kernel.created == kernel.closed
        invariant Legal(history) && Retry(lastRetryTime, retryBackoffTime) == After(history)
      {
        sfd := kernel.Socket();
        if sfd == -1 {
          rp := rp + 1;
          continue;
        }
        ret := kernel.Connect(sfd);
        if ret == 0 {
          break;
        }
        kernel.Close(sfd);
        rp := rp + 1;
      }
      if ret == -1 {
        return;
      }
      socketFd := sfd;
    }

    /** socket_initialize. */
    method Initialize() returns (ret: int)
      requires Valid() && socketFd == -1
      modifies this`socketFd, kernel
      ensures Valid()
      ensures ret == if socketFd == -1 then -1 else 0
      ensures TriedAll(old(kernel.lookups), old(kernel.asked), ret)
    {
      ret := ResolveAndConnect();
    }

    /** socket_try_reconnect, at the time `now` that it reads. The current socket is given up first; a connection
        is attempted only when it is due, and that attempt is recorded in the history. */
    method TryReconnect() returns (ret: int, ghost now: int)
      requires Valid()
      modifies this`socketFd, this`lastRetryTime, this`retryBackoffTime, this`history, this`reconnects,
        kernel`open, kernel`connected, kernel`asked, kernel`created, kernel`closed, kernel`lookups, kernel`times, kernel`draws
      ensures Valid() && kernel.times == old(kernel.times) + [now] && reconnects == old(reconnects) + [ret == 0]
      ensures ret == if socketFd == -1 then -1 else 0
      ensures now - old(lastRetryTime) < old(retryBackoffTime) ==>
        && ret == -1 && kernel.lookups == old(kernel.lookups) && kernel.asked == old(kernel.asked)
        && history == old(history) && lastRetryTime == old(lastRetryTime) && retryBackoffTime == old(retryBackoffTime)
      ensures now - old(lastRetryTime) >= old(retryBackoffTime) ==>
        && TriedAll(old(kernel.lookups), old(kernel.asked), ret)
        && |history| == |old(history)| + 1 && history[..|old(history)|] == old(history)
        && history[|old(history)|].time == now
        && (ret == 0 <==> history[|old(history)|].Recovered?)
        && (ret != 0 ==>
             && lastRetryTime == now && old(kernel.draws) <= kernel.draws
             && Lengthened(old(retryBackoffTime), retryBackoffTime, kernel.draws[|old(kernel.draws)|..]))
      ensures ret == 0 ==> lastRetryTime == 0 && retryBackoffTime == 1
    {
      var currentTime := kernel.Time();
      now := currentTime;
      ret := -1;
      if socketFd != -1 {
        kernel.Close(socketFd);
        socketFd := -1;
      }
      if currentTime - lastRetryTime >= retryBackoffTime {
        ret := ResolveAndConnect();
        if ret != 0 {
          BackOff(currentTime);
        } else {
          ResetBackoff(currentTime);
        }
      }
      reconnects := reconnects + [ret == 0];
    }

    /** The attempt failed: the next one waits longer. */
    method BackOff(currentTime: int)
      requires Valid() && socketFd == -1 && Due(After(history), currentTime)
      modifies this`lastRetryTime, this`retryBackoffTime, this`history, kernel`draws
      ensures Valid()
      ensures exists jitter :: history == old(history) + [Failed(currentTime, jitter)]
      ensures lastRetryTime == currentTime && old(kernel.draws) <= kernel.draws
      ensures Lengthened(old(retryBackoffTime), retryBackoffTime, kernel.draws[|old(kernel.draws)|..])
    {
      lastRetryTime := currentTime;
      var jitter := 0;
      if retryBackoffTime < MAX_DURATION_CONNECTION_RETRY {
        var randJitter := kernel.GetRandom();
        jitter := if randJitter != -1 then randJitter % 10 else 0;
        retryBackoffTime := retryBackoffTime * 2 + jitter;
      }
      HistoryNext(history, Failed(currentTime, jitter));
      history := history + [Failed(currentTime, jitter)];
    }

    /** The attempt succeeded. */
    method ResetBackoff(currentTime: int)
      requires Valid() && Due(After(history), currentTime)
      modifies this`lastRetryTime, this`retryBackoffTime, this`history
      ensures Valid() && lastRetryTime == 0 && retryBackoffTime == 1
      ensures history == old(history) + [Recovered(currentTime)]
    {
      lastRetryTime, retryBackoffTime := 0, 1;
      HistoryNext(history, Recovered(currentTime));
      history := history + [Recovered(currentTime)];
    }

    /** socket_store_report: without a connection one reconnection comes first, and nothing is
        sent if it fails or if the document is not `serialized`; then comes the send loop. */
    method StoreReport(serialized: bool) returns (ret: int)
      requires Valid()
      modifies this, kernel
      ensures Valid()
      ensures old(kernel.sends) <= kernel.sends && old(reconnects) <= reconnects
      ensures Stored(ret, serialized, old(socketFd) != -1, kernel.sends[|old(kernel.sends)|..], reconnects[|old(reconnects)|..])
    {
      if socketFd == -1 {
        var reconnected, _ := TryReconnect();
        if reconnected != 0 {
          return -1;
        }
      }
      ghost var first := reconnects;
      if !serialized {
        return -1;
      }
      ret := SendLoop();
      assert reconnects[|old(reconnects)|..] == first[|old(reconnects)|..] + reconnects[|first|..];
    }

    /** The do ... while loop: `continue` goes to the condition, which takes the one retry. */
    method SendLoop() returns (ret: int)
      requires Valid() && socketFd != -1
      modifies this, kernel
      ensures Valid()
      ensures old(kernel.sends) <= kernel.sends && old(reconnects) <= reconnects
      ensures Sent(ret, kernel.sends[|old(kernel.sends)|..], reconnects[|old(reconnects)|..])
    {
      var retryOnce := 1;
      var again := true;
      while again
        invariant Valid() && socketFd != -1
        invariant 0 <= retryOnce <= 1
        invariant reconnects == old(reconnects) + if retryOnce == 1 then [] else [true]
        invariant kernel.sends == old(kernel.sends) + (if retryOnce == 1 then [] else [false]) + if again then [] else [true]
        decreases again, retryOnce
      {
        var nbsend := kernel.Send(socketFd);
        if nbsend == -1 {
          if retryOnce != 0 {
            var reconnected, _ := TryReconnect();
            if reconnected == 0 {
              again := retryOnce != 0;
              retryOnce := retryOnce - 1;
              continue;
            }
          }
          return -1;
        }
        again := false;
      }
      return 0;
    }

    /** socket_deinitialize: nothing stays open and every descriptor was closed once. */
    method Deinitialize()
      requires Valid()
      modifies kernel
      ensures kernel.open == {} && kernel.created == kernel.closed
    {
      if socketFd != -1 {
        kernel.Close(socketFd);
      }
    }
  }
}
