/** The table of RADIUS requests in flight: indexed by the eight-bit identifier of the packet, filled by requests,
    raced by answers and timers. */
module RadiusClient {
  import opened Wire

  datatype Call = Response(serial: nat) | Timeout(serial: nat)

  /** An entry of the table. `serial` numbers the requests for the proofs; `cancelled` says that `cancel()` was called
      on the entry's timer. */
  datatype Entry = Entry(serial: nat, cancelled: bool)

  /** A timer completion that has not been delivered yet; the code binds the identifier into it. */
  datatype Wait = Wait(id: u8, serial: nat)

  /** `requests` counts the calls, `log` lists the handlers that were run, and `armed` counts the receives that were
      started and have not taken a datagram yet: only sending a request starts one. */
  datatype Client = Client(lastId: u8, requests: nat, callbacks: map<u8, Entry>, waits: set<Wait>, armed: nat, log: seq<Call>)

  function Start(): Client { Client(0, 0, map[], {}, 0, []) }

  /** A request whose identifier is taken is given up without a word. */
  function Request(c: Client): Client {
    var id, n := (c.lastId + 1) % 0x100, c.requests + 1;
    var c1 := c.(lastId := id, requests := n);
    if id in c.callbacks then c1
    else c1.(callbacks := c.callbacks[id := Entry(n, false)], waits := c.waits + {Wait(id, n)}, armed := c.armed + 1)
  }

  /** `on_rcv`: a datagram uses up a receive; `authentic` is the verdict on its authenticator. */
  function Answer(c: Client, id: u8, authentic: bool): Client
    requires c.armed > 0
  {
    var c1 := c.(armed := c.armed - 1);
    if id !in c.callbacks || !authentic then c1
    else c1.(log := c.log + [Response(c.callbacks[id].serial)],
             callbacks := c.callbacks[id := c.callbacks[id].(cancelled := true)])
  }

  /** `expire_check` for the completion `w`; `aborted` is its error code. With the last entry the receives are cancelled;
      `late` of them have their datagram already, and it is still delivered. */
  function Expire(c: Client, w: Wait, aborted: bool, late: nat): Client {
    var c1 := c.(waits := c.waits - {w});
    var c2 := if w.id !in c.callbacks then c1
              else c1.(callbacks := c.callbacks - {w.id},
                       log := if aborted then c.log else c.log + [Timeout(c.callbacks[w.id].serial)]);
    if c2.callbacks == map[] then c2.(armed := late) else c2
  }

  // ---- Runs --------------------------------------------------------------------------------------------------------

  datatype Event = Sends | Answers(id: u8, authentic: bool) | Fires(w: Wait, aborted: bool, late: nat)

  /** A datagram needs a receive. A completion is delivered once, and reports an abort only if its timer was cancelled.
      A timer that had already expired when it was cancelled still reports its expiry. */
  predicate Possible(c: Client, e: Event) {
    && (e.Answers? ==> c.armed > 0)
    && (e.Fires? ==> e.late <= c.armed && e.w in c.waits && (e.aborted ==> e.w.id in c.callbacks && c.callbacks[e.w.id].cancelled))
  }

  function Step(c: Client, e: Event): Client
    requires Possible(c, e)
  {
    match e
    case Sends => Request(c)
    case Answers(id, authentic) => Answer(c, id, authentic)
    case Fires(w, aborted, late) => Expire(c, w, aborted, late)
  }

  ghost predicate IsRun(states: seq<Client>, events: seq<Event>) {
    && |states| == |events| + 1 && states[0] == Start()
    && forall i :: 0 <= i < |events| ==> Possible(states[i], events[i]) && states[i + 1] == Step(states[i], events[i])
  }

  /** Entries and undelivered completions correspond one to one, and belong to the same request. */
  ghost predicate OneToOne(c: Client) {
    && (forall id :: id in c.callbacks ==> Wait(id, c.callbacks[id].serial) in c.waits)
    && (forall w :: w in c.waits ==> w.id in c.callbacks && c.callbacks[w.id].serial == w.serial)
  }

  /** Identifiers are the request numbers, cut to eight bits. */
  ghost predicate Numbered(c: Client) {
    && c.lastId == c.requests % 0x100
    && (forall id :: id in c.callbacks ==> 0 < c.callbacks[id].serial <= c.requests && c.callbacks[id].serial % 0x100 == id)
    && (forall k :: k in c.log ==> 0 < k.serial <= c.requests)
  }

  /** A timer is only cancelled after the response handler has run. */
  ghost predicate CancelledAfterResponse(c: Client) {
    forall id :: id in c.callbacks && c.callbacks[id].cancelled ==> Response(c.callbacks[id].serial) in c.log
  }

  ghost predicate Inv(c: Client) {
    OneToOne(c) && Numbered(c) && CancelledAfterResponse(c)
  }

  lemma NextId(requests: nat)
    ensures (requests % 0x100 + 1) % 0x100 == (requests + 1) % 0x100
  {
  }

  lemma RequestKeeps(c: Client)
    requires Inv(c)
    ensures Inv(Request(c))
  {
    NextId(c.requests);
  }

  lemma AnswerKeeps(c: Client, id: u8, authentic: bool)
    requires Inv(c) && c.armed > 0
    ensures Inv(Answer(c, id, authentic))
  {
  }

  lemma ExpireKeeps(c: Client, w: Wait, aborted: bool, late: nat)
    requires Inv(c) && Possible(c, Fires(w, aborted, late))
    ensures Inv(Expire(c, w, aborted, late))
  {
  }

  lemma {:induction false} InvAlways(states: seq<Client>, events: seq<Event>, i: nat)
    requires IsRun(states, events) && i < |states|
    ensures Inv(states[i])
    decreases i
  {
    if i == 0 {
    } else {
      InvAlways(states, events, i - 1);
      match events[i - 1]
      case Sends => RequestKeeps(states[i - 1]);
      case Answers(id, authentic) => AnswerKeeps(states[i - 1], id, authentic);
      case Fires(w, aborted, late) => ExpireKeeps(states[i - 1], w, aborted, late);
    }
  }

  /** In every run, at any moment: one completion outstanding per entry and one entry per completion, and both are of the
      same request, in spite of the wrap-around. */
  lemma EntriesAndTimersMatch(states: seq<Client>, events: seq<Event>, i: nat)
    requires IsRun(states, events) && i < |states|
    ensures OneToOne(states[i])
    ensures forall v, w :: v in states[i].waits && w in states[i].waits && v.id == w.id ==> v == w
  {
    InvAlways(states, events, i);
  }

  /** A completion removes the entry of its own request and no other, and by then one of that request's handlers has
      run. */
  lemma CompletionEndsItsOwn(states: seq<Client>, events: seq<Event>, i: nat)
    requires IsRun(states, events) && i < |events| && events[i].Fires?
    ensures var c, c1, w := states[i], states[i + 1], events[i].w;
            && w.id in c.callbacks && c.callbacks[w.id].serial == w.serial
            && c1.callbacks == c.callbacks - {w.id}
            && (Response(w.serial) in c1.log || Timeout(w.serial) in c1.log)
  {
    InvAlways(states, events, i);
    var c, w := states[i], events[i].w;
    if events[i].aborted {
      assert Response(w.serial) in c.log;
    }
  }

  /** Entries leave the table in no other way. */
  lemma OnlyCompletionsRemove(states: seq<Client>, events: seq<Event>, i: nat, id: u8)
    requires IsRun(states, events) && i < |events| && id in states[i].callbacks
    requires id !in states[i + 1].callbacks || states[i + 1].callbacks[id].serial != states[i].callbacks[id].serial
    ensures events[i].Fires? && events[i].w == Wait(id, states[i].callbacks[id].serial)
  {
    InvAlways(states, events, i);
  }

  /** In every run a request's timer has been cancelled if and only if its response handler has run. */
  lemma {:induction false} CancelledIffAnswered(states: seq<Client>, events: seq<Event>, i: nat, id: u8)
    requires IsRun(states, events) && i < |states| && id in states[i].callbacks
    ensures states[i].callbacks[id].cancelled <==> Response(states[i].callbacks[id].serial) in states[i].log
    decreases i
  {
    InvAlways(states, events, i);
    if i == 0 {
    } else {
      var c, e := states[i - 1], events[i - 1];
      InvAlways(states, events, i - 1);
      if id in c.callbacks {
        CancelledIffAnswered(states, events, i - 1, id);
        OneHandlerMore(c, e, id);
      } else {
        assert states[i].callbacks[id] == Entry(c.requests + 1, false);
      }
    }
  }

  /** What an event does to the entry under `id`, and what it adds to the log for its request. */
  lemma OneHandlerMore(c: Client, e: Event, id: u8)
    requires Inv(c) && Possible(c, e) && id in c.callbacks && id in Step(c, e).callbacks
    requires c.callbacks[id].cancelled <==> Response(c.callbacks[id].serial) in c.log
    ensures var c1 := Step(c, e);
            c1.callbacks[id].cancelled <==> Response(c1.callbacks[id].serial) in c1.log
  {
  }

  // ---- Requests that are given up ----------------------------------------------------------------------------------

  /** Request `n` was accepted into the table. */
  ghost predicate Accepted(states: seq<Client>, events: seq<Event>, n: nat) {
    exists i :: Enters(states, events, i, n)
  }

  predicate Enters(states: seq<Client>, events: seq<Event>, i: int, n: nat) {
    0 <= i < |events| < |states| && events[i].Sends? && states[i].requests + 1 == n && n % 0x100 !in states[i].callbacks
  }

  /** A call to `request` is given up exactly when the request 256, 512, ... before it is still outstanding. */
  lemma GivenUpIff(states: seq<Client>, events: seq<Event>, i: nat)
    requires IsRun(states, events) && i < |events| && events[i].Sends?
    ensures states[i + 1].callbacks == states[i].callbacks <==>
            exists w :: w in states[i].waits && w.serial % 0x100 == (states[i].requests + 1) % 0x100
  {
    InvAlways(states, events, i);
    var c := states[i];
    var id := (c.requests + 1) % 0x100;
    assert id == (c.lastId + 1) % 0x100;
    if id in c.callbacks {
      assert Wait(id, c.callbacks[id].serial) in c.waits;
    } else {
      assert id in states[i + 1].callbacks;
    }
  }

  function AllSent(n: nat): seq<Event> { seq(n, _ => Sends) }

  function Sent(n: nat): Client {
    if n == 0 then Start() else Request(Sent(n - 1))
  }

  /** `n` requests are outstanding and nothing else has happened. */
  ghost predicate Outstanding(c: Client, n: nat) {
    && c.requests == n && c.lastId == (if n == 0x100 then 0 else n)
    && forall id: u8 :: id in c.callbacks <==> 1 <= id <= n || (id == 0 && n == 0x100)
  }

  lemma OneMoreOutstanding(c: Client, n: nat)
    requires n < 0x100 && Outstanding(c, n)
    ensures Outstanding(Request(c), n + 1)
  {
    var id: u8 := if n == 0xFF then 0 else n + 1;
    assert (c.lastId + 1) % 0x100 == id && id !in c.callbacks;
  }

  /** Up to 256 requests can be outstanding. */
  lemma {:induction false} AllOutstanding(n: nat)
    requires n <= 0x100
    ensures Outstanding(Sent(n), n)
  {
    if n == 0 {
    } else {
      AllOutstanding(n - 1);
      OneMoreOutstanding(Sent(n - 1), n - 1);
    }
  }

  lemma SentRun(n: nat) returns (states: seq<Client>)
    ensures IsRun(states, AllSent(n)) && forall i :: 0 <= i <= n ==> states[i] == Sent(i)
  {
    states := seq(n + 1, i requires 0 <= i <= n => Sent(i));
    forall i | 0 <= i < n ensures states[i + 1] == Step(states[i], AllSent(n)[i]) {
      assert states[i + 1] == Sent(i + 1);
    }
  }

  lemma {:induction false} RequestsCounted(n: nat)
    ensures Sent(n).requests == n
  {
    if n == 0 {
    } else {
      RequestsCounted(n - 1);
    }
  }

  /** With `n` requests made and no answer in between, request `n` is given up: it is one too many. */
  lemma OneTooManyIsGivenUp(n: nat) returns (states: seq<Client>, events: seq<Event>)
    requires n == 257
    ensures events == AllSent(n) && IsRun(states, events) && states[n].requests == n && !Accepted(states, events, n)
  {
    events := AllSent(n);
    states := SentRun(n);
    RequestsCounted(n);
    AllOutstanding(n - 1);
    forall i | 0 <= i < n ensures !Enters(states, events, i, n) {
      RequestsCounted(i);
      assert i == n - 1 ==> 1 in Sent(i).callbacks;
    }
  }

  lemma {:induction false} KnownWereAccepted(states: seq<Client>, events: seq<Event>, i: nat, n: nat)
    requires IsRun(states, events) && i < |states|
    requires (exists id :: id in states[i].callbacks && states[i].callbacks[id].serial == n) ||
             Response(n) in states[i].log || Timeout(n) in states[i].log
    ensures Accepted(states, events, n)
    decreases i
  {
    if i == 0 {
    } else {
      InvAlways(states, events, i - 1);
      var c, e := states[i - 1], events[i - 1];
      if e.Sends? && c.requests + 1 == n && n % 0x100 !in c.callbacks {
        assert Enters(states, events, i - 1, n);
      } else {
        KnownBefore(c, e, n);
        KnownWereAccepted(states, events, i - 1, n);
      }
    }
  }

  /** Request `n` is in the table. */
  ghost predicate Entered(c: Client, n: nat) {
    exists id :: id in c.callbacks && c.callbacks[id].serial == n
  }

  ghost predicate Knows(c: Client, n: nat) {
    Entered(c, n) || Response(n) in c.log || Timeout(n) in c.log
  }

  lemma KnownBefore(c: Client, e: Event, n: nat)
    requires Inv(c) && Possible(c, e) && Knows(Step(c, e), n)
    requires !(e.Sends? && c.requests + 1 == n && n % 0x100 !in c.callbacks)
    ensures Knows(c, n)
  {
    match e
    case Sends => KnownBeforeRequest(c, n);
    case Answers(id, authentic) => KnownBeforeAnswer(c, id, authentic, n);
    case Fires(w, aborted, late) => KnownBeforeExpiry(c, w, aborted, late, n);
  }

  lemma KnownBeforeRequest(c: Client, n: nat)
    requires Numbered(c) && Knows(Request(c), n) && !(c.requests + 1 == n && n % 0x100 !in c.callbacks)
    ensures Knows(c, n)
  {
    NextId(c.requests);
    if Entered(Request(c), n) {
      var id :| id in Request(c).callbacks && Request(c).callbacks[id].serial == n;
      assert id in c.callbacks;
    }
  }

  lemma KnownBeforeAnswer(c: Client, id: u8, authentic: bool, n: nat)
    requires c.armed > 0 && Knows(Answer(c, id, authentic), n)
    ensures Knows(c, n)
  {
    var c1 := Answer(c, id, authentic);
    if Entered(c1, n) {
      var x :| x in c1.callbacks && c1.callbacks[x].serial == n;
      assert x in c.callbacks && c.callbacks[x].serial == n;
    }
  }

  lemma KnownBeforeExpiry(c: Client, w: Wait, aborted: bool, late: nat, n: nat)
    requires Knows(Expire(c, w, aborted, late), n)
    ensures Knows(c, n)
  {
    var c1 := Expire(c, w, aborted, late);
    if Entered(c1, n) {
      var x :| x in c1.callbacks && c1.callbacks[x].serial == n;
      assert x in c.callbacks && c.callbacks[x].serial == n;
    }
  }

  /** Neither handler of a request that was given up is ever run. */
  lemma GivenUpStaysSilent(states: seq<Client>, events: seq<Event>, i: nat, n: nat)
    requires IsRun(states, events) && i < |states| && !Accepted(states, events, n)
    ensures Response(n) !in states[i].log && Timeout(n) !in states[i].log
  {
    if Response(n) in states[i].log || Timeout(n) in states[i].log {
      KnownWereAccepted(states, events, i, n);
    }
  }

  // ---- How often a handler runs ------------------------------------------------------------------------------------

  function Calls(log: seq<Call>, n: nat): nat {
    if log == [] then 0 else Calls(log[..|log| - 1], n) + if log[|log| - 1].serial == n then 1 else 0
  }

  /** Request `n` is still in the table, or was never made so far. */
  ghost predicate Open(c: Client, n: nat) {
    n > c.requests || exists id :: id in c.callbacks && c.callbacks[id].serial == n
  }

  /** Once a request has left the table, none of its handlers runs again. */
  lemma {:induction false} NothingAfterTheEnd(states: seq<Client>, events: seq<Event>, i: nat, j: nat, n: nat)
    requires IsRun(states, events) && i <= j < |states| && !Open(states[i], n)
    ensures !Open(states[j], n) && Calls(states[j].log, n) == Calls(states[i].log, n)
    decreases j
  {
    if j <= i {
    } else {
      NothingAfterTheEnd(states, events, i, j - 1, n);
      InvAlways(states, events, j - 1);
      ClosedStep(states[j - 1], events[j - 1], n);
    }
  }

  lemma ClosedStep(c: Client, e: Event, n: nat)
    requires Inv(c) && Possible(c, e) && !Open(c, n)
    ensures !Open(Step(c, e), n) && Calls(Step(c, e).log, n) == Calls(c.log, n)
  {
    var c1 := Step(c, e);
    if |c1.log| > |c.log| {
      assert c1.log[..|c1.log| - 1] == c.log;
    }
  }

  /** An authentic answer while the request is in the table, or the expiry of its timer. */
  predicate Hits(c: Client, e: Event, n: nat) {
    || (e.Answers? && e.authentic && e.id in c.callbacks && c.callbacks[e.id].serial == n)
    || (e.Fires? && !e.aborted && e.w.serial == n)
  }

  function HitCount(states: seq<Client>, events: seq<Event>, i: nat, n: nat): nat
    requires i <= |events| < |states|
  {
    if i == 0 then 0 else HitCount(states, events, i - 1, n) + if Hits(states[i - 1], events[i - 1], n) then 1 else 0
  }

  lemma CallsOfAStep(c: Client, e: Event, n: nat)
    requires Inv(c) && Possible(c, e)
    ensures Calls(Step(c, e).log, n) == Calls(c.log, n) + (if Hits(c, e, n) then 1 else 0)
  {
    var c1 := Step(c, e);
    if |c1.log| > |c.log| {
      assert c1.log[..|c1.log| - 1] == c.log;
    }
  }

  /** A request's handlers run once for each authentic answer that finds it in the table, and once if its timer expires:
      exactly once in all if and only if that happens once in all. */
  lemma {:induction false} CallsCountHits(states: seq<Client>, events: seq<Event>, i: nat, n: nat)
    requires IsRun(states, events) && i < |states|
    ensures Calls(states[i].log, n) == HitCount(states, events, i, n)
  {
    if i == 0 {
    } else {
      InvAlways(states, events, i - 1);
      CallsCountHits(states, events, i - 1, n);
      CallsOfAStep(states[i - 1], events[i - 1], n);
    }
  }

  // ---- Which requests can still take an answer ---------------------------------------------------------------------

  predicate IsAccepted(c: Client, e: Event) { e.Sends? && (c.lastId + 1) % 0x100 !in c.callbacks }
  predicate IsDatagram(c: Client, e: Event) { e.Answers? }
  predicate IsCompletion(c: Client, e: Event) { e.Fires? }

  /** How many of the events `k`, ..., `i - 1` satisfy `p`. */
  function Count(states: seq<Client>, events: seq<Event>, k: nat, i: nat, p: (Client, Event) -> bool): nat
    requires k <= i <= |events| < |states|
  {
    if i == k then 0 else Count(states, events, k, i - 1, p) + if p(states[i - 1], events[i - 1]) then 1 else 0
  }

  /** A completion that takes out the last entry. */
  predicate Empties(c1: Client, e: Event) { e.Fires? && c1.callbacks == map[] }

  /** The moment, up to `i`, at which the table was last emptied, or else the start. */
  function Emptied(states: seq<Client>, events: seq<Event>, i: nat): (k: nat)
    requires i <= |events| < |states|
    ensures k <= i
  {
    if i == 0 || Empties(states[i], events[i - 1]) then i else Emptied(states, events, i - 1)
  }

  /** The receives that were left then: their datagrams had arrived already. */
  function Left(events: seq<Event>, k: nat): nat
    requires k <= |events|
  {
    if k > 0 && events[k - 1].Fires? then events[k - 1].late else 0
  }

  lemma RequestBalance(c: Client)
    ensures var c1, n := Request(c), if IsAccepted(c, Sends) then 1 else 0;
            c1.armed == c.armed + n && |c1.callbacks| == |c.callbacks| + n
  {
    var id := (c.lastId + 1) % 0x100;
    if id !in c.callbacks {
      OneMoreEntry(c.callbacks, id, Entry(c.requests + 1, false));
    }
  }

  lemma OneMoreEntry(m: map<u8, Entry>, id: u8, e: Entry)
    requires id !in m
    ensures |m[id := e]| == |m| + 1
  {
    assert m[id := e].Keys == m.Keys + {id};
  }

  lemma AnswerBalance(c: Client, id: u8, authentic: bool)
    requires c.armed > 0
    ensures var c1 := Answer(c, id, authentic); c1.armed == c.armed - 1 && |c1.callbacks| == |c.callbacks|
  {
    assert Answer(c, id, authentic).callbacks.Keys == c.callbacks.Keys;
  }

  lemma ExpireBalance(c: Client, w: Wait, aborted: bool, late: nat)
    requires w.id in c.callbacks && Expire(c, w, aborted, late).callbacks != map[]
    ensures var c1 := Expire(c, w, aborted, late); c1.armed == c.armed && |c1.callbacks| == |c.callbacks| - 1
  {
    assert Expire(c, w, aborted, late).callbacks == c.callbacks - {w.id};
    OneEntryLess(c.callbacks, w.id);
  }

  lemma OneEntryLess(m: map<u8, Entry>, id: u8)
    requires id in m
    ensures |m - {id}| == |m| - 1
  {
    assert (m - {id}).Keys == m.Keys - {id};
  }

  lemma BalanceStep(c: Client, e: Event)
    requires OneToOne(c) && Possible(c, e) && !Empties(Step(c, e), e)
    ensures Step(c, e).armed == c.armed + (if IsAccepted(c, e) then 1 else 0) - (if IsDatagram(c, e) then 1 else 0)
    ensures |Step(c, e).callbacks| == |c.callbacks| + (if IsAccepted(c, e) then 1 else 0) - (if IsCompletion(c, e) then 1 else 0)
  {
    match e
    case Sends => RequestBalance(c);
    case Answers(id, authentic) => AnswerBalance(c, id, authentic);
    case Fires(w, aborted, late) => ExpireBalance(c, w, aborted, late);
  }

  /** Since the table was last emptied: the receives that wait and the datagrams taken are those left over then and one for
      each request accepted; and the entries and the completions are the requests accepted. */
  lemma {:induction false} Balance(states: seq<Client>, events: seq<Event>, i: nat)
    requires IsRun(states, events) && i <= |events|
    ensures var k := Emptied(states, events, i);
            && states[i].armed + Count(states, events, k, i, IsDatagram) ==
               Left(events, k) + Count(states, events, k, i, IsAccepted)
            && |states[i].callbacks| + Count(states, events, k, i, IsCompletion) == Count(states, events, k, i, IsAccepted)
    decreases i
  {
    if i == 0 || Empties(states[i], events[i - 1]) {
    } else {
      Balance(states, events, i - 1);
      InvAlways(states, events, i - 1);
      BalanceStep(states[i - 1], events[i - 1]);
    }
  }

  /** An answer can be taken if and only if, since the table was last emptied, fewer datagrams came than requests were
      accepted; datagrams that had arrived by then come on top. */
  lemma AnswerTakenIff(states: seq<Client>, events: seq<Event>, i: nat, id: u8, authentic: bool)
    requires IsRun(states, events) && i <= |events|
    ensures var k := Emptied(states, events, i);
            Possible(states[i], Answers(id, authentic)) <==>
            Count(states, events, k, i, IsDatagram) < Left(events, k) + Count(states, events, k, i, IsAccepted)
  {
    Balance(states, events, i);
  }

  /** There is a receive for every request in the table if and only if no more datagrams than completions came since. */
  lemma ReceivePerRequestIff(states: seq<Client>, events: seq<Event>, i: nat)
    requires IsRun(states, events) && i <= |events|
    ensures var k := Emptied(states, events, i);
            |states[i].callbacks| <= states[i].armed <==>
            Count(states, events, k, i, IsDatagram) <= Left(events, k) + Count(states, events, k, i, IsCompletion)
  {
    Balance(states, events, i);
  }

  lemma {:induction false} CountSplit(states: seq<Client>, events: seq<Event>, k: nat, i: nat, p: (Client, Event) -> bool)
    requires k <= i <= |events| < |states|
    ensures Count(states, events, 0, i, p) == Count(states, events, 0, k, p) + Count(states, events, k, i, p)
    decreases i
  {
    if i == k {
    } else {
      CountSplit(states, events, k, i - 1, p);
    }
  }

  /** So over a whole run one datagram can be taken for each accepted request, no more. */
  lemma {:induction false} DatagramsArePaidFor(states: seq<Client>, events: seq<Event>, i: nat)
    requires IsRun(states, events) && i <= |events|
    ensures Count(states, events, 0, i, IsDatagram) + states[i].armed <= Count(states, events, 0, i, IsAccepted)
    decreases i
  {
    var k := Emptied(states, events, i);
    Balance(states, events, i);
    CountSplit(states, events, k, i, IsDatagram);
    CountSplit(states, events, k, i, IsAccepted);
    if k == 0 {
    } else {
      DatagramsArePaidFor(states, events, k - 1);
      EmptiedByCompletion(states, events, i);
      assert Left(events, k) <= states[k - 1].armed;
    }
  }

  lemma {:induction false} EmptiedByCompletion(states: seq<Client>, events: seq<Event>, i: nat)
    requires i <= |events| < |states| && Emptied(states, events, i) > 0
    ensures events[Emptied(states, events, i) - 1].Fires?
    decreases i
  {
    if Empties(states[i], events[i - 1]) {
    } else {
      EmptiedByCompletion(states, events, i - 1);
    }
  }

  /** A datagram that answers nothing costs a request its answer: here one forged or stray datagram leaves a request in the
      table for which no answer can be taken until another request is sent. */
  lemma StrayDatagramDeafens() returns (states: seq<Client>, events: seq<Event>)
    ensures IsRun(states, events) && |events| == 2 && 1 in states[2].callbacks && states[2].log == []
    ensures forall id, authentic :: !Possible(states[2], Answers(id, authentic))
    ensures Possible(Step(states[2], Sends), Answers(1, true))
  {
    events := [Sends, Answers(1, false)];
    var c1 := Request(Start());
    states := [Start(), c1, Answer(c1, 1, false)];
  }

  /** With a second request outstanding, an answer that arrives twice before the cancelled timer is dealt with runs the
      response handler twice. */
  lemma DuplicateAnswerRunsTwice() returns (states: seq<Client>, events: seq<Event>)
    ensures IsRun(states, events) && |events| == 4 && states[4].log == [Response(1), Response(1)]
  {
    events := [Sends, Sends, Answers(1, true), Answers(1, true)];
    var c1 := Request(Start());
    var c2 := Request(c1);
    var c3 := Answer(c2, 1, true);
    states := [Start(), c1, c2, c3, Answer(c3, 1, true)];
  }

  /** An answer that arrives when the timer has expired but not been dealt with runs both handlers. */
  lemma LateAnswerRunsBoth() returns (states: seq<Client>, events: seq<Event>)
    ensures IsRun(states, events) && |events| == 3 && states[3].log == [Response(1), Timeout(1)]
  {
    events := [Sends, Answers(1, true), Fires(Wait(1, 1), false, 0)];
    var c1 := Request(Start());
    var c2 := Answer(c1, 1, true);
    states := [Start(), c1, c2, Expire(c2, Wait(1, 1), false, 0)];
  }

  // ---- The code's form ---------------------------------------------------------------------------------------------

  class AuthClient {
    var lastId: u8
    var callbacks: map<u8, Entry>
    ghost var requests: nat
    ghost var waits: set<Wait>
    ghost var armed: nat
    var log: seq<Call>

    ghost function Value(): Client
      reads this
    {
      Client(lastId, requests, callbacks, waits, armed, log)
    }

    constructor ()
      ensures Value() == Start()
    {
      lastId, callbacks, log := 0, map[], [];
      requests, waits, armed := 0, {}, 0;
    }

    /** `request` and `acct_request`; `serial` is the caller's count of them. */
    method Send(serial: nat) returns (sent: Option<u8>)
      requires serial == requests + 1
      modifies this
      ensures Value() == Request(old(Value()))
      ensures sent == if (old(lastId) + 1) % 0x100 in old(callbacks) then None else Some((old(lastId) + 1) % 0x100)
    {
      lastId := (lastId + 1) % 0x100;
      requests := requests + 1;
      if lastId in callbacks {
        return None;
      }
      callbacks := callbacks[lastId := Entry(serial, false)];
      waits := waits + {Wait(lastId, requests)};
      armed := armed + 1;
      sent := Some(lastId);
    }

    method OnRcv(id: u8, authentic: bool)
      requires armed > 0
      modifies this
      ensures Value() == Answer(old(Value()), id, authentic)
    {
      armed := armed - 1;
      if id !in callbacks {
        return;
      }
      var entry := callbacks[id];
      if !authentic {
        return;
      }
      log := log + [Response(entry.serial)];
      callbacks := callbacks[id := entry.(cancelled := true)];
    }

    method ExpireCheck(aborted: bool, id: u8, ghost serial: nat, ghost late: nat)
      modifies this
      ensures Value() == Expire(old(Value()), Wait(id, serial), aborted, late)
    {
      waits := waits - {Wait(id, serial)};
      if !aborted {
        if id in callbacks {
          log := log + [Timeout(callbacks[id].serial)];
        }
      }
      if id in callbacks {
        callbacks := callbacks - {id};
      }
      if callbacks == map[] {
        armed := late;
      }
    }
  }
}
