/** Runs of several downloads against one server: every download receives a contiguous run of its data. */
module GetRuns {
  import opened Bytes
  import opened GetModel
  import opened M2MString

  type Server = Text -> Text

  /** How a download stands: waiting for a reply, or ended in one of five ways. */
  datatype Status =
    | Waiting
    | Complete    // a reply had the more bit clear
    | OneBlock    // an asynchronous request got its block and there is more
    | Refused     // the error callback was called
    | Stalled     // the request for the next block could not be sent
    | NotSent     // the first request could not be sent

  datatype Download = Download(uri: Text, start: nat, async: bool, status: Status)

  /** The client and the book kept on its downloads, one per context. */
  datatype System = System(client: Downloads, book: map<nat, Download>)

  const NEW_SYSTEM := System(Downloads([], []), map[])

  /** A download starts, the server's answer to a token arrives, or a reply with an error code does. */
  datatype Event =
    | Start(uri: Text, offset: nat, async: bool, context: nat, attempt: Attempt)
    | Answered(token: nat, announced: bool, next: Attempt)
    | Rejected(token: nat)

  function StatusAfter(r: Request, reply: Reply, next: Attempt): (status: Status) {
    if !reply.content then Refused
    else if !Continues(reply.options) then Complete
    else if r.async then OneBlock
    else if next.sent then Waiting
    else Stalled
  }

  function Replied(sys: System, token: nat, reply: Reply, next: Attempt): (after: System) {
    var rs := sys.client.requests;
    var i := IndexOf(rs, token);
    if i == |rs| || rs[i].context !in sys.book then sys
    else
      var c := rs[i].context;
      System(HandleReply(sys.client, token, reply, next),
             sys.book[c := sys.book[c].(status := StatusAfter(rs[i], reply, next))])
  }

  function ReplyTo(server: Server, size: nat, block: nat, rs: seq<Request>, token: nat, announced: bool): (reply: Reply)
    requires size > 0 && block > 0
  {
    var i := IndexOf(rs, token);
    if i < |rs| then Answer(server(rs[i].uri), BlockNumber(rs[i], size), size, block, announced)
    else Reply(false, [], NoOptions)
  }

  function Step(server: Server, size: nat, block: nat, sys: System, e: Event): (r: System)
    requires size > 0 && block > 0
  {
    match e
    case Start(uri, offset, async, context, attempt) =>
      System(SendGet(sys.client, uri, offset, async, context, attempt),
             sys.book[context := Download(uri, offset, async, if attempt.sent then Waiting else NotSent)])
    case Answered(token, announced, next) =>
      Replied(sys, token, ReplyTo(server, size, block, sys.client.requests, token, announced), next)
    case Rejected(token) => Replied(sys, token, Reply(false, [], NoOptions), Attempt(0, false))
  }

  predicate FreshToken(rs: seq<Request>, a: Attempt) {
    forall i :: 0 <= i < |rs| ==> rs[i].token != a.Token()
  }

  /** Tokens are distinct, and a context names one download. */
  predicate Permitted(sys: System, e: Event) {
    match e
    case Start(_, _, _, context, attempt) => context !in sys.book && FreshToken(sys.client.requests, attempt)
    case Answered(_, _, next) => FreshToken(sys.client.requests, next)
    case Rejected(_) => true
  }

  /** The client's block size is `size`, the server's is `block`. */
  function Run(server: Server, size: nat, block: nat, es: seq<Event>): (r: System)
    requires size > 0 && block > 0
    decreases |es|
  {
    if es == [] then NEW_SYSTEM else Step(server, size, block, Run(server, size, block, es[..|es| - 1]), es[|es| - 1])
  }

  predicate AllPermitted(server: Server, size: nat, block: nat, es: seq<Event>)
    requires size > 0 && block > 0
    decreases |es|
  {
    es == [] ||
    (AllPermitted(server, size, block, es[..|es| - 1]) &&
     Permitted(Run(server, size, block, es[..|es| - 1]), es[|es| - 1]))
  }

  /** The bytes handed to the data callback of a context, in order. */
  function Delivered(ups: seq<Upcall>, context: nat): (t: Text)
    decreases |ups|
  {
    if ups == [] then []
    else
      var u := ups[|ups| - 1];
      var before := Delivered(ups[..|ups| - 1], context);
      if u.Data? && u.context == context then before + u.payload else before
  }

  lemma DeliveredSnoc(ups: seq<Upcall>, u: Upcall, context: nat)
    ensures Delivered(ups + [u], context) ==
            Delivered(ups, context) + if u.Data? && u.context == context then u.payload else []
  {
    assert (ups + [u])[..|ups|] == ups;
  }

  // ----- the invariant

  /** The block that holds the start offset. */
  function Base(start: nat, size: nat): (n: nat)
    requires size > 0
  {
    start - start % size
  }

  predicate IsRunOf(data: Text, from: nat, got: Text) {
    got == [] || (from + |got| <= |data| && got == data[from..from + |got|])
  }

  predicate DistinctTokens(rs: seq<Request>) {
    forall i, j :: 0 <= i < j < |rs| ==> rs[i].token != rs[j].token
  }

  predicate DistinctContexts(rs: seq<Request>) {
    forall i, j :: 0 <= i < j < |rs| ==> rs[i].context != rs[j].context
  }

  predicate Outstanding(rs: seq<Request>, c: nat) {
    exists i :: 0 <= i < |rs| && rs[i].context == c
  }

  /** A request belongs to a waiting download and has counted exactly the whole blocks delivered to it. */
  predicate Booked(r: Request, book: map<nat, Download>, ups: seq<Upcall>, size: nat)
    requires size > 0
  {
    && r.context in book
    && var dl := book[r.context];
    && dl.status.Waiting? && dl.uri == r.uri && dl.async == r.async
    && r.received == dl.start + |Delivered(ups, r.context)|
    && |Delivered(ups, r.context)| % size == 0
  }

  predicate AllBooked(sys: System, size: nat)
    requires size > 0
  {
    forall i :: 0 <= i < |sys.client.requests| ==>
      Booked(sys.client.requests[i], sys.book, sys.client.upcalls, size)
  }

  /** What a download has received, and when it is complete. */
  predicate Sound(dl: Download, data: Text, got: Text, size: nat)
    requires size > 0
  {
    && IsRunOf(data, Base(dl.start, size), got)
    && (dl.status.Complete? ==> got != [] && Base(dl.start, size) + |got| == |data|)
  }

  predicate AllSound(server: Server, size: nat, sys: System)
    requires size > 0
  {
    forall c :: c in sys.book ==> Sound(sys.book[c], server(sys.book[c].uri), Delivered(sys.client.upcalls, c), size)
  }

  predicate WaitingIsOutstanding(sys: System) {
    forall c :: c in sys.book && sys.book[c].status.Waiting? ==> Outstanding(sys.client.requests, c)
  }

  ghost predicate NothingUnbooked(sys: System) {
    forall c :: c !in sys.book ==> Delivered(sys.client.upcalls, c) == []
  }

  ghost predicate Inv(server: Server, size: nat, sys: System)
    requires size > 0
  {
    && DistinctTokens(sys.client.requests)
    && DistinctContexts(sys.client.requests)
    && AllBooked(sys, size)
    && AllSound(server, size, sys)
    && WaitingIsOutstanding(sys)
    && NothingUnbooked(sys)
  }

  // ----- starting a download

  lemma StartKeeps(server: Server, size: nat, sys: System, e: Event)
    requires size > 0 && Inv(server, size, sys) && e.Start? && Permitted(sys, e)
    ensures Inv(server, size, Step(server, size, size, sys, e))
  {
    hide Delivered;
    var t := Step(server, size, size, sys, e);
    var c := e.context;
    var rs, rs' := sys.client.requests, t.client.requests;
    assert forall i :: 0 <= i < |rs| ==> rs[i] == rs'[i];
    assert forall i :: 0 <= i < |rs| ==> rs[i].context != c by {
      assert forall i :: 0 <= i < |rs| ==> Booked(rs[i], sys.book, sys.client.upcalls, size);
    }
    assert AllBooked(t, size) by {
      forall i | 0 <= i < |rs'| ensures Booked(rs'[i], t.book, t.client.upcalls, size) {
        if i < |rs| { assert Booked(rs[i], sys.book, sys.client.upcalls, size); }
      }
    }
    assert WaitingIsOutstanding(t) by {
      forall x | x in t.book && t.book[x].status.Waiting? ensures Outstanding(rs', x) {
        if x == c {
          assert rs'[|rs|].context == c;
        } else {
          assert Outstanding(rs, x);
        }
      }
    }
  }

  // ----- one reply

  lemma AlignedOffset(start: nat, got: nat, size: nat)
    requires size > 0 && got % size == 0
    ensures (start + got) / size * size == Base(start, size) + got
  {
    var q, r, k := start / size, start % size, got / size;
    assert start + got == (q + k) * size + r by { assert (q + k) * size == q * size + k * size; }
    DivModUnique(start + got, size, q + k, r);
    assert (q + k) * size == q * size + k * size;
  }

  lemma NextWhole(got: nat, size: nat)
    requires size > 0 && got % size == 0
    ensures (got + size) % size == 0
  {
    var k := got / size;
    assert got + size == (k + 1) * size + 0;
    DivModUnique(got + size, size, k + 1, 0);
  }

  /** An answer extends the run of its download, and its more bit tells whether the run is complete. */
  lemma AnswerExtends(data: Text, dl: Download, r: Request, got: Text, size: nat, announced: bool)
    requires size > 0 && IsRunOf(data, Base(dl.start, size), got)
    requires r.received == dl.start + |got| && |got| % size == 0
    ensures var a := Answer(data, BlockNumber(r, size), size, size, announced);
            a.content ==>
              && a.payload != []
              && IsRunOf(data, Base(dl.start, size), got + a.payload)
              && (Continues(a.options) ==> |got + a.payload| % size == 0)
              && (!Continues(a.options) ==> Base(dl.start, size) + |got + a.payload| == |data|)
  {
    AlignedOffset(dl.start, |got|, size);
    var n := BlockNumber(r, size);
    var from := Base(dl.start, size);
    var a := Answer(data, n, size, size, announced);
    if a.content {
      assert n * size == from + |got|;
      var hi := Min(n * size + size, |data|);
      assert got + a.payload == data[from..hi] by {
        assert data[from..from + |got|] + data[from + |got|..hi] == data[from..hi];
        if got == [] { assert data[from..from + |got|] == []; }
      }
      if Continues(a.options) { NextWhole(|got|, size); }
    }
  }

  /** The upcall of a reply. */
  function UpcallFor(r: Request, reply: Reply): (u: Upcall) {
    if reply.content then Data(r.context, reply.payload, TotalSize(reply)) else Failed(r.context)
  }

  /** The request for the block after the reply, if there is one. */
  function NextRequest(r: Request, reply: Reply, next: Attempt): (rs: seq<Request>) {
    if reply.content && !r.async && Continues(reply.options) && next.sent
    then [Request(next.Token(), r.uri, r.received + |reply.payload|, r.async, r.context)]
    else []
  }

  /** The effect of a reply to the request at `i` on the list: it goes, and the next one may be appended. */
  lemma RepliedRequests(d: Downloads, i: nat, reply: Reply, next: Attempt)
    requires i < |d.requests| && DistinctTokens(d.requests)
    ensures var r := d.requests[i];
            var d' := HandleReply(d, r.token, reply, next);
            var rest := d.requests[..i] + d.requests[i + 1..];
            && d'.requests == rest + NextRequest(r, reply, next)
            && d'.upcalls == d.upcalls + [UpcallFor(r, reply)]
  {
    var r := d.requests[i];
    TokenAt(d.requests, i);
    var d1 := Consume(d, r, reply, next);
    FirstStays(d.requests, d1.requests, i);
    assert d1.requests[..i] == d.requests[..i];
    if d1.requests != d.requests {
      assert d1.requests[i + 1..] == d.requests[i + 1..] + [d1.requests[|d.requests|]];
    }
  }

  lemma TokenAt(rs: seq<Request>, i: nat)
    requires i < |rs| && DistinctTokens(rs)
    ensures IndexOf(rs, rs[i].token) == i
  {
  }

  lemma FirstStays(rs: seq<Request>, more: seq<Request>, i: nat)
    requires i < |rs| && rs <= more && IndexOf(rs, rs[i].token) == i
    ensures IndexOf(more, rs[i].token) == i
  {
    assert forall j :: 0 <= j < |rs| ==> more[j] == rs[j];
  }

  predicate Good(server: Server, size: nat, r: Request, reply: Reply)
    requires size > 0
  {
    !reply.content || exists announced :: reply == Answer(server(r.uri), BlockNumber(r, size), size, size, announced)
  }

  lemma RestKeeps(rs: seq<Request>, i: nat)
    requires i < |rs| && DistinctTokens(rs) && DistinctContexts(rs)
    ensures var rest := rs[..i] + rs[i + 1..];
            && DistinctTokens(rest) && DistinctContexts(rest)
            && (forall j :: 0 <= j < |rest| ==> rest[j] in rs && rest[j].context != rs[i].context)
            && (forall c :: c != rs[i].context && Outstanding(rs, c) ==> Outstanding(rest, c))
  {
    var rest := rs[..i] + rs[i + 1..];
    assert forall j :: 0 <= j < |rest| ==> rest[j] == rs[if j < i then j else j + 1];
    forall c | c != rs[i].context && Outstanding(rs, c) ensures Outstanding(rest, c) {
      var j :| 0 <= j < |rs| && rs[j].context == c;
      assert rest[if j < i then j else j - 1].context == c;
    }
  }

  /** The setting of the lemmas on one reply: `t` follows `sys` by a reply to its request `i`. */
  ghost predicate OneReply(server: Server, size: nat, sys: System, i: nat, reply: Reply, next: Attempt, t: System)
    requires size > 0
  {
    && Inv(server, size, sys) && i < |sys.client.requests|
    && Good(server, size, sys.client.requests[i], reply)
    && (FreshToken(sys.client.requests, next) || !reply.content)
    && t == Replied(sys, sys.client.requests[i].token, reply, next)
  }

  /** The list, the book and the delivered bytes after the reply. */
  lemma ReplyEffects(server: Server, size: nat, sys: System, i: nat, reply: Reply, next: Attempt, t: System)
    requires size > 0 && OneReply(server, size, sys, i, reply, next, t)
    ensures var rs := sys.client.requests;
            var r := rs[i];
            && Booked(r, sys.book, sys.client.upcalls, size)
            && Sound(sys.book[r.context], server(r.uri), Delivered(sys.client.upcalls, r.context), size)
            && t.client.requests == rs[..i] + rs[i + 1..] + NextRequest(r, reply, next)
            && t.book == sys.book[r.context := sys.book[r.context].(status := StatusAfter(r, reply, next))]
            && Delivered(t.client.upcalls, r.context) ==
               Delivered(sys.client.upcalls, r.context) + (if reply.content then reply.payload else [])
            && forall x :: x != r.context ==> Delivered(t.client.upcalls, x) == Delivered(sys.client.upcalls, x)
  {
    hide Delivered, HandleReply, Inv, Good, FreshToken, Booked, Sound, StatusAfter, NextRequest, UpcallFor;
    InvAt(server, size, sys, i);
    RepliedRequests(sys.client, i, reply, next);
    DeliveredAfter(sys.client.upcalls, sys.client.requests[i], reply);
  }

  lemma InvAt(server: Server, size: nat, sys: System, i: nat)
    requires size > 0 && Inv(server, size, sys) && i < |sys.client.requests|
    ensures var r := sys.client.requests[i];
            && DistinctTokens(sys.client.requests)
            && IndexOf(sys.client.requests, r.token) == i
            && Booked(r, sys.book, sys.client.upcalls, size)
            && r.context in sys.book
            && Sound(sys.book[r.context], server(r.uri), Delivered(sys.client.upcalls, r.context), size)
  {
    hide Delivered, Sound, DistinctContexts, WaitingIsOutstanding, NothingUnbooked;
    TokenAt(sys.client.requests, i);
  }

  lemma DeliveredAfter(ups: seq<Upcall>, r: Request, reply: Reply)
    ensures var after := ups + [UpcallFor(r, reply)];
            && Delivered(after, r.context) == Delivered(ups, r.context) + (if reply.content then reply.payload else [])
            && forall x :: x != r.context ==> Delivered(after, x) == Delivered(ups, x)
  {
    hide Delivered, TotalSize;
    var u := UpcallFor(r, reply);
    DeliveredSnoc(ups, u, r.context);
    forall x | x != r.context ensures Delivered(ups + [u], x) == Delivered(ups, x) {
      DeliveredSnoc(ups, u, x);
      assert Delivered(ups, x) + [] == Delivered(ups, x);
    }
  }

  /** What the reply's own download has received afterwards. */
  lemma OwnGrows(server: Server, size: nat, sys: System, i: nat, reply: Reply, next: Attempt, t: System)
    requires size > 0 && OneReply(server, size, sys, i, reply, next, t)
    ensures var r := sys.client.requests[i];
            var got := Delivered(t.client.upcalls, r.context);
            && r.context in t.book
            && Sound(t.book[r.context], server(r.uri), got, size)
            && |got| == |Delivered(sys.client.upcalls, r.context)| + (if reply.content then |reply.payload| else 0)
            && (reply.content && Continues(reply.options) ==> |got| % size == 0)
            && (reply.content ==> reply.payload != [])
  {
    hide Delivered, Answer, HandleReply, IsRunOf, Inv, FreshToken, Continues, Base;
    var r := sys.client.requests[i];
    var got := Delivered(sys.client.upcalls, r.context);
    ReplyEffects(server, size, sys, i, reply, next, t);
    if reply.content {
      var announced :| reply == Answer(server(r.uri), BlockNumber(r, size), size, size, announced);
      AnswerExtends(server(r.uri), sys.book[r.context], r, got, size, announced);
    } else {
      assert got + [] == got;
    }
  }

  lemma ReplyKeepsDistinct(server: Server, size: nat, sys: System, i: nat, reply: Reply, next: Attempt, t: System)
    requires size > 0 && OneReply(server, size, sys, i, reply, next, t)
    ensures DistinctTokens(t.client.requests) && DistinctContexts(t.client.requests)
  {
    hide Delivered, Replied, Good, AllBooked, AllSound, WaitingIsOutstanding, NothingUnbooked, Booked, Sound;
    ReplyEffects(server, size, sys, i, reply, next, t);
    RestKeeps(sys.client.requests, i);
  }

  lemma ReplyKeepsBooked(server: Server, size: nat, sys: System, i: nat, reply: Reply, next: Attempt, t: System)
    requires size > 0 && OneReply(server, size, sys, i, reply, next, t)
    ensures AllBooked(t, size)
  {
    hide Delivered, Replied, Good, AllSound, WaitingIsOutstanding, NothingUnbooked, Sound, FreshToken,
         DistinctTokens, DistinctContexts;
    var rs := sys.client.requests;
    ReplyEffects(server, size, sys, i, reply, next, t);
    OwnGrows(server, size, sys, i, reply, next, t);
    RestKeeps(rs, i);
    var rest := rs[..i] + rs[i + 1..];
    var rs' := t.client.requests;
    forall j | 0 <= j < |rs'| ensures Booked(rs'[j], t.book, t.client.upcalls, size) {
      if j < |rest| {
        assert rs'[j] == rest[j];
        var k :| 0 <= k < |rs| && rs[k] == rest[j];
        assert Booked(rs[k], sys.book, sys.client.upcalls, size);
      } else {
        assert rs'[j] == NextRequest(rs[i], reply, next)[0];
      }
    }
  }

  lemma ReplyKeepsWaiting(server: Server, size: nat, sys: System, i: nat, reply: Reply, next: Attempt, t: System)
    requires size > 0 && OneReply(server, size, sys, i, reply, next, t)
    ensures WaitingIsOutstanding(t)
  {
    hide Delivered, Replied, Good, AllSound, AllBooked, NothingUnbooked, Sound, FreshToken, DistinctTokens,
         DistinctContexts, Continues, Booked;
    var rs := sys.client.requests;
    ReplyEffects(server, size, sys, i, reply, next, t);
    RestKeeps(rs, i);
    var rest := rs[..i] + rs[i + 1..];
    var rs' := t.client.requests;
    assert forall j :: 0 <= j < |rest| ==> rs'[j] == rest[j];
    forall x | x in t.book && t.book[x].status.Waiting? ensures Outstanding(rs', x) {
      if x == rs[i].context {
        assert rs'[|rest|] == NextRequest(rs[i], reply, next)[0];
      } else {
        assert Outstanding(rs, x);
        var j :| 0 <= j < |rest| && rest[j].context == x;
        assert rs'[j].context == x;
      }
    }
  }

  lemma ReplyKeepsSound(server: Server, size: nat, sys: System, i: nat, reply: Reply, next: Attempt, t: System)
    requires size > 0 && OneReply(server, size, sys, i, reply, next, t)
    ensures AllSound(server, size, t) && NothingUnbooked(t)
  {
    hide Delivered, Replied, Good, AllBooked, WaitingIsOutstanding, Sound, FreshToken, DistinctTokens,
         DistinctContexts, StatusAfter, NextRequest;
    ReplyEffects(server, size, sys, i, reply, next, t);
    OwnGrows(server, size, sys, i, reply, next, t);
  }

  lemma ReplyKeeps(server: Server, size: nat, sys: System, i: nat, reply: Reply, next: Attempt)
    requires size > 0 && Inv(server, size, sys) && i < |sys.client.requests|
    requires Good(server, size, sys.client.requests[i], reply)
    requires FreshToken(sys.client.requests, next) || !reply.content
    ensures Inv(server, size, Replied(sys, sys.client.requests[i].token, reply, next))
  {
    hide Replied, Good, FreshToken, DistinctTokens, DistinctContexts, AllBooked, AllSound, WaitingIsOutstanding,
         NothingUnbooked;
    var t := Replied(sys, sys.client.requests[i].token, reply, next);
    ReplyKeepsDistinct(server, size, sys, i, reply, next, t);
    ReplyKeepsBooked(server, size, sys, i, reply, next, t);
    ReplyKeepsWaiting(server, size, sys, i, reply, next, t);
    ReplyKeepsSound(server, size, sys, i, reply, next, t);
  }

  lemma StepKeeps(server: Server, size: nat, sys: System, e: Event)
    requires size > 0 && Inv(server, size, sys) && Permitted(sys, e)
    ensures Inv(server, size, Step(server, size, size, sys, e))
  {
    hide Inv, HandleReply, Answer, FreshToken, SendGet;
    match e
    case Start(_, _, _, _, _) => StartKeeps(server, size, sys, e);
    case Answered(token, announced, next) =>
      var i := IndexOf(sys.client.requests, token);
      if i < |sys.client.requests| {
        ReplyKeeps(server, size, sys, i, ReplyTo(server, size, size, sys.client.requests, token, announced), next);
      }
    case Rejected(token) =>
      var i := IndexOf(sys.client.requests, token);
      if i < |sys.client.requests| {
        ReplyKeeps(server, size, sys, i, Reply(false, [], NoOptions), Attempt(0, false));
      }
  }

  lemma {:induction false} RunKeeps(server: Server, size: nat, es: seq<Event>)
    requires size > 0 && AllPermitted(server, size, size, es)
    ensures Inv(server, size, Run(server, size, size, es))
    decreases |es|
  {
    if es != [] {
      RunKeeps(server, size, es[..|es| - 1]);
      StepKeeps(server, size, Run(server, size, size, es[..|es| - 1]), es[|es| - 1]);
    }
  }

  // ----- the theorems

  /**
   * In every interleaving: what a download has received is a contiguous run of its data from the start
   * of the block that holds its start offset; it has at most one request outstanding, exactly while it
   * waits; and after a reply with the more bit clear it holds all the data from there on.
   */
  lemma DownloadsAreContiguous(server: Server, size: nat, es: seq<Event>, c: nat)
    requires size > 0 && AllPermitted(server, size, size, es)
    requires c in Run(server, size, size, es).book
    ensures var sys := Run(server, size, size, es);
            var dl := sys.book[c];
            var data := server(dl.uri);
            var from := Base(dl.start, size);
            var got := Delivered(sys.client.upcalls, c);
            && (got == [] || (from + |got| <= |data| && got == data[from..from + |got|]))
            && (dl.status.Complete? ==> from <= |data| && got == data[from..])
            && (dl.status.Waiting? <==> Outstanding(sys.client.requests, c))
            && DistinctContexts(sys.client.requests)
  {
    hide Run, Delivered;
    RunKeeps(server, size, es);
    var sys := Run(server, size, size, es);
    if Outstanding(sys.client.requests, c) {
      var i :| 0 <= i < |sys.client.requests| && sys.client.requests[i].context == c;
      assert Booked(sys.client.requests[i], sys.book, sys.client.upcalls, size);
    }
  }

  /** An answer to an outstanding request delivers at least one byte, or ends the download with an error. */
  lemma AnswersProgress(server: Server, size: nat, es: seq<Event>, i: nat, announced: bool, next: Attempt)
    requires size > 0 && AllPermitted(server, size, size, es)
    requires i < |Run(server, size, size, es).client.requests| && FreshToken(Run(server, size, size, es).client.requests, next)
    ensures var sys := Run(server, size, size, es);
            var r := sys.client.requests[i];
            var t := Step(server, size, size, sys, Answered(r.token, announced, next));
            && r.context in t.book
            && (t.book[r.context].status.Refused? ||
                |Delivered(t.client.upcalls, r.context)| > |Delivered(sys.client.upcalls, r.context)|)
  {
    hide Run, Delivered, Inv, Answer, HandleReply, AllPermitted, FreshToken;
    RunKeeps(server, size, es);
    var sys := Run(server, size, size, es);
    var rs := sys.client.requests;
    InvTokens(server, size, sys);
    TokenAt(rs, i);
    var reply := ReplyTo(server, size, size, rs, rs[i].token, announced);
    var t := Replied(sys, rs[i].token, reply, next);
    ReplyEffects(server, size, sys, i, reply, next, t);
    OwnGrows(server, size, sys, i, reply, next, t);
  }

  lemma InvTokens(server: Server, size: nat, sys: System)
    requires size > 0 && Inv(server, size, sys)
    ensures DistinctTokens(sys.client.requests)
  {
  }

  // ----- what the callbacks are told

  /** The upcall of a reply with content: its payload, and the size in its Size2 option, or its own without any option. */
  lemma TotalIs(d: Downloads, token: nat, reply: Reply, next: Attempt)
    requires IndexOf(d.requests, token) < |d.requests| && reply.content
    ensures var ups, r := HandleReply(d, token, reply, next).upcalls, d.requests[IndexOf(d.requests, token)];
            && |ups| == |d.upcalls| + 1 && ups[..|d.upcalls|] == d.upcalls
            && var u := ups[|d.upcalls|];
            && u.Data? && u.context == r.context && u.payload == reply.payload
            && (reply.options.NoOptions? ==> u.total == |reply.payload|)
            && (reply.options.Options? && reply.options.size2.None? ==> u.total == 0)
            && (reply.options.Options? && reply.options.size2.Some? ==> u.total == reply.options.size2.value)
  {
  }

  /** A reply with a token that nobody waits for changes nothing. */
  lemma UnknownIsIgnored(d: Downloads, token: nat, reply: Reply, next: Attempt)
    requires forall i :: 0 <= i < |d.requests| ==> d.requests[i].token != token
    ensures HandleReply(d, token, reply, next) == d
  {
  }

  /**
   * The first request with the token is answered and taken from the list. A synchronous one is followed by
   * one for the rest exactly if the reply has options without Block2, or with more blocks to come.
   */
  lemma RequestsAfterReply(d: Downloads, i: nat, reply: Reply, next: Attempt)
    requires i < |d.requests| && forall j :: 0 <= j < i ==> d.requests[j].token != d.requests[i].token
    ensures var r := d.requests[i];
            var more := reply.content && !r.async && reply.options.Options? &&
                        (reply.options.block2.Absent? || reply.options.block2.more);
            var token := if next.random == 0 then 1 else next.random;
            var following := if more && next.sent
                             then [Request(token, r.uri, r.received + |reply.payload|, false, r.context)] else [];
            HandleReply(d, r.token, reply, next).requests == d.requests[..i] + d.requests[i + 1..] + following
  {
    var r := d.requests[i];
    var d1 := Consume(d, r, reply, next);
    assert IndexOf(d.requests, r.token) == i;
    assert d.requests <= d1.requests && IndexOf(d1.requests, r.token) == i;
  }

  /** In every run no request has the token 0. */
  lemma {:induction false} TokensAreNotZero(server: Server, size: nat, block: nat, es: seq<Event>)
    requires size > 0 && block > 0
    ensures NoneZero(Run(server, size, block, es).client.requests)
    decreases |es|
  {
    if es != [] {
      TokensAreNotZero(server, size, block, es[..|es| - 1]);
      StepTokens(server, size, block, Run(server, size, block, es[..|es| - 1]), es[|es| - 1]);
    }
  }

  predicate NoneZero(rs: seq<Request>) {
    forall i :: 0 <= i < |rs| ==> rs[i].token != 0
  }

  lemma StepTokens(server: Server, size: nat, block: nat, sys: System, e: Event)
    requires size > 0 && block > 0 && NoneZero(sys.client.requests)
    ensures NoneZero(Step(server, size, block, sys, e).client.requests)
  {
  }

  lemma FailureIs(d: Downloads, token: nat, reply: Reply, next: Attempt)
    requires IndexOf(d.requests, token) < |d.requests| && !reply.content
    ensures var r := d.requests[IndexOf(d.requests, token)];
            HandleReply(d, token, reply, next).upcalls == d.upcalls + [Failed(r.context)]
  {
  }

  /** How often the error callback of a context was called. */
  function Failures(ups: seq<Upcall>, c: nat): (n: nat)
    decreases |ups|
  {
    if ups == [] then 0
    else Failures(ups[..|ups| - 1], c) + if ups[|ups| - 1] == Failed(c) then 1 else 0
  }

  /** Each data callback was told the size of the data, or 0 by a server that does not announce it. */
  ghost predicate Told(server: Server, sys: System, always: bool) {
    forall k :: 0 <= k < |sys.client.upcalls| && sys.client.upcalls[k].Data? ==>
      var u := sys.client.upcalls[k];
      && u.context in sys.book
      && (u.total == |server(sys.book[u.context].uri)| || (!always && u.total == 0))
  }

  /** The error callback was called once for each download that was refused, and for no other. */
  ghost predicate FailedOnce(sys: System) {
    forall c :: Failures(sys.client.upcalls, c) == if c in sys.book && sys.book[c].status.Refused? then 1 else 0
  }

  predicate AlwaysAnnounced(es: seq<Event>) {
    forall k :: 0 <= k < |es| ==> es[k].Answered? ==> es[k].announced
  }

  lemma ReplyTells(server: Server, size: nat, sys: System, e: Event, always: bool)
    requires size > 0 && Inv(server, size, sys) && Told(server, sys, always) && FailedOnce(sys) && !e.Start?
    requires always && e.Answered? ==> e.announced
    ensures Told(server, Step(server, size, size, sys, e), always) && FailedOnce(Step(server, size, size, sys, e))
  {
    hide Delivered, Inv, AllSound, WaitingIsOutstanding, NothingUnbooked, SendGet, Free, HandleReply, Failures, BlockNumber, Base;
    var rs := sys.client.requests;
    var i := IndexOf(rs, e.token);
    if i < |rs| {
      var reply, next := if e.Answered? then ReplyTo(server, size, size, rs, e.token, e.announced) else Reply(false, [], NoOptions),
                         if e.Answered? then e.next else Attempt(0, false);
      BookedAt(server, size, sys, i);
      var t := Replied(sys, e.token, reply, next);
      assert t == Step(server, size, size, sys, e);
      if reply.content {
        TotalIs(sys.client, e.token, reply, next);
        NoFailure(sys.client.upcalls, t.client.upcalls);
      } else {
        FailureIs(sys.client, e.token, reply, next);
        OneFailure(sys.client.upcalls, rs[i].context);
      }
    }
  }

  lemma BookedAt(server: Server, size: nat, sys: System, i: nat)
    requires size > 0 && Inv(server, size, sys) && i < |sys.client.requests|
    ensures var r := sys.client.requests[i];
            r.context in sys.book && sys.book[r.context].status.Waiting? && sys.book[r.context].uri == r.uri
  {
    hide Delivered;
    assert Booked(sys.client.requests[i], sys.book, sys.client.upcalls, size);
  }

  lemma NoFailure(ups: seq<Upcall>, more: seq<Upcall>)
    requires |more| == |ups| + 1 && more[..|ups|] == ups && more[|ups|].Data?
    ensures forall c :: Failures(more, c) == Failures(ups, c)
  {
    assert more == ups + [more[|ups|]];
  }

  lemma OneFailure(ups: seq<Upcall>, context: nat)
    ensures forall c :: Failures(ups + [Failed(context)], c) == Failures(ups, c) + if c == context then 1 else 0
  {
    assert (ups + [Failed(context)])[..|ups|] == ups;
  }

  lemma StartTells(server: Server, size: nat, sys: System, e: Event, always: bool)
    requires size > 0 && Inv(server, size, sys) && Told(server, sys, always) && FailedOnce(sys)
    requires e.Start? && Permitted(sys, e)
    ensures Told(server, Step(server, size, size, sys, e), always) && FailedOnce(Step(server, size, size, sys, e))
  {
    hide Inv, Failures;
    var t := Step(server, size, size, sys, e);
    assert t.client.upcalls == sys.client.upcalls;
  }

  lemma {:induction false} RunTells(server: Server, size: nat, es: seq<Event>, always: bool)
    requires size > 0 && AllPermitted(server, size, size, es) && (always ==> AlwaysAnnounced(es))
    ensures Told(server, Run(server, size, size, es), always) && FailedOnce(Run(server, size, size, es))
    decreases |es|
  {
    hide Inv, Step, Told, FailedOnce, Permitted;
    if es == [] {
      NothingTold(server, always);
    } else {
      var init, e := es[..|es| - 1], es[|es| - 1];
      RunTells(server, size, init, always);
      RunKeeps(server, size, init);
      if e.Start? {
        StartTells(server, size, Run(server, size, size, init), e, always);
      } else {
        ReplyTells(server, size, Run(server, size, size, init), e, always);
      }
    }
  }

  lemma NothingTold(server: Server, always: bool)
    ensures Told(server, NEW_SYSTEM, always) && FailedOnce(NEW_SYSTEM)
  {
  }

  /**
   * In every interleaving with a server that announces sizes, every data callback of a download is told the
   * size of its data; and a download from the beginning that is complete has been handed that many bytes.
   * The error callback is called exactly once for a refused download and never for another.
   */
  lemma CallbacksAreToldTheSize(server: Server, size: nat, es: seq<Event>, c: nat, k: nat)
    requires size > 0 && AllPermitted(server, size, size, es) && AlwaysAnnounced(es)
    ensures var sys := Run(server, size, size, es);
            && (k < |sys.client.upcalls| && sys.client.upcalls[k].Data? && sys.client.upcalls[k].context == c ==>
                  && c in sys.book && sys.client.upcalls[k].total == |server(sys.book[c].uri)|
                  && (sys.book[c].start == 0 && sys.book[c].status.Complete? ==>
                        |Delivered(sys.client.upcalls, c)| == sys.client.upcalls[k].total))
            && Failures(sys.client.upcalls, c) == if c in sys.book && sys.book[c].status.Refused? then 1 else 0
  {
    hide Run, Delivered, Failures, AllPermitted;
    RunTells(server, size, es, true);
    if c in Run(server, size, size, es).book {
      DownloadsAreContiguous(server, size, es, c);
    }
  }

  /** One block: data that differs between the block's start and the offset. */
  function Marked(start: nat, size: nat): (t: Text)
    requires size > 0
  {
    seq(Base(start, size) + size, i => if i == Base(start, size) then 1 else 0)
  }

  /** The first answer of a download from `start` when the data is one marked block. */
  function FirstAnswer(start: nat, size: nat): (reply: Reply)
    requires size > 0
  {
    Answer(Marked(start, size), BlockNumber(Request(1, [], start, false, 0), size), size, size, false)
  }

  /** A download begins at its start offset exactly when that is a multiple of the block size. */
  lemma StartIsAlignedExactly(start: nat, size: nat)
    requires size > 0
    ensures Base(start, size) == start <==> start % size == 0
    ensures start % size != 0 ==>
              && start < |Marked(start, size)| && FirstAnswer(start, size).content
              && !(FirstAnswer(start, size).payload <= Marked(start, size)[start..])
  {
    var data := Marked(start, size);
    AlignedOffset(start, 0, size);
    if start % size != 0 {
      assert FirstAnswer(start, size).payload == data[Base(start, size)..];
      assert data[Base(start, size)] == 1 && data[start] == 0;
    }
  }

  // ----- servers with another block size

  /**
   * One download from `start` whose first answer comes in the server's own block size: the next request, if
   * there is one, asks for what follows exactly when the sizes agree or the rest fits one block.
   */
  lemma FollowsExactly(data: Text, start: nat, size: nat, block: nat, announced: bool)
    requires 0 < block <= size && Base(start, size) < |data|
    ensures var from := Base(start, size);
            var r := Request(1, [], start, false, 0);
            var a := Answer(data, BlockNumber(r, size), size, block, announced);
            var next := r.(received := start + |a.payload|);
            && a.content && a.payload == data[from..Min(from + block, |data|)]
            && (Continues(a.options) <==> from + block < |data|)
            && ((Continues(a.options) ==> BlockNumber(next, size) * size == from + |a.payload|) <==>
                block == size || |data| - from <= block)
  {
    hide BlockNumber, Base, Answer;
    FirstBlock(data, start, size, block, announced);
    NextPosition(start, size, block);
  }

  lemma FirstBlock(data: Text, start: nat, size: nat, block: nat, announced: bool)
    requires 0 < block <= size && Base(start, size) < |data|
    ensures var from := Base(start, size);
            var a := Answer(data, BlockNumber(Request(1, [], start, false, 0), size), size, block, announced);
            && a.content && a.payload == data[from..Min(from + block, |data|)]
            && (Continues(a.options) <==> from + block < |data|)
  {
    hide Base;
    AlignedOffset(start, 0, size);
  }

  lemma NextPosition(start: nat, size: nat, block: nat)
    requires 0 < block <= size
    ensures BlockNumber(Request(1, [], start + block, false, 0), size) * size == Base(start, size) + block <==> block == size
  {
    if block == size {
      AlignedOffset(start, size, size);
    } else {
      BaseIs(start, size);
      NotAMultiple(start / size, block, (start + block) / size, size);
    }
  }

  lemma BaseIs(start: nat, size: nat)
    requires size > 0
    ensures Base(start, size) == start / size * size
  {
  }

  lemma NotAMultiple(q: nat, block: nat, n: nat, size: nat)
    requires 0 < block < size
    ensures n * size != q * size + block
  {
    if n * size == q * size + block {
      DivModUnique(n * size, size, q, block);
      DivModUnique(n * size, size, n, 0);
    }
  }

  const SOME_URI: Text := []

  /** Data of one client block whose first byte differs from all the others. */
  function MarkedServer(size: nat): (server: Server) {
    uri => seq(size, i => if i == 0 then 1 else 0)
  }

  const START: Event := Start(SOME_URI, 0, false, 0, Attempt(1, true))
  const FIRST: Event := Answered(1, false, Attempt(2, true))
  const SECOND: Event := Answered(2, false, Attempt(3, true))

  /** A download from the beginning and two answers. */
  const TWO_ANSWERS: seq<Event> := [START] + [FIRST] + [SECOND]

  ghost predicate ContiguousInEveryRun(size: nat, block: nat)
    requires size > 0 && block > 0
  {
    forall server, es, c ::
      AllPermitted(server, size, block, es) && c in Run(server, size, block, es).book ==>
        var sys := Run(server, size, block, es);
        IsRunOf(server(sys.book[c].uri), Base(sys.book[c].start, size), Delivered(sys.client.upcalls, c))
  }

  lemma RunSnoc(server: Server, size: nat, block: nat, es: seq<Event>, e: Event)
    requires size > 0 && block > 0
    ensures Run(server, size, block, es + [e]) == Step(server, size, block, Run(server, size, block, es), e)
    ensures AllPermitted(server, size, block, es + [e]) <==>
            AllPermitted(server, size, block, es) && Permitted(Run(server, size, block, es), e)
  {
    hide Step, Permitted;
    assert (es + [e])[..|es|] == es;
  }

  /** The system while the download has `received` counted and waits for `token`. */
  function Downloading(token: nat, received: nat, ups: seq<Upcall>): (sys: System) {
    System(Downloads([Request(token, SOME_URI, received, false, 0)], ups),
           map[0 := Download(SOME_URI, 0, false, Waiting)])
  }

  /** One answer with the first `block` bytes, while less than the client's block size is counted. */
  lemma AnsweredAgain(size: nat, block: nat, token: nat, received: nat, ups: seq<Upcall>, next: nat)
    requires 0 < block < size && received < size && next > 0
    ensures Step(MarkedServer(size), size, block, Downloading(token, received, ups), Answered(token, false, Attempt(next, true)))
            == Downloading(next, received + block, ups + [FirstBytes(size, block)])
  {
    var sys := Downloading(token, received, ups);
    var r := sys.client.requests[0];
    DivModUnique(received, size, 0, received);
    var data := MarkedServer(size)(SOME_URI);
    var reply := Answer(data, BlockNumber(r, size), size, block, false);
    assert reply == Reply(true, data[..block], Options(Option.None, Block(0, true))) by {
      DivModUnique(0, block, 0, 0);
    }
    assert sys.client.requests == [r] && DistinctTokens([r]);
    RepliedRequests(sys.client, 0, reply, Attempt(next, true));
    assert [r][..0] + [r][1..] == [];
  }

  /** One event more of a run. */
  lemma OneMore(server: Server, size: nat, block: nat, es: seq<Event>, e: Event, before: System, after: System)
    requires size > 0 && block > 0
    requires AllPermitted(server, size, block, es) && Run(server, size, block, es) == before
    requires Permitted(before, e) && Step(server, size, block, before, e) == after
    ensures AllPermitted(server, size, block, es + [e]) && Run(server, size, block, es + [e]) == after
  {
    hide Run, AllPermitted, Step, Permitted;
    RunSnoc(server, size, block, es, e);
  }

  lemma StartedAlone(server: Server, size: nat, block: nat)
    requires 0 < block < size
    ensures AllPermitted(server, size, block, [START])
    ensures Run(server, size, block, [START]) == Downloading(1, 0, [])
  {
    assert [] + [START] == [START];
    OneMore(server, size, block, [], START, NEW_SYSTEM, Downloading(1, 0, []));
  }

  /** The upcall with the first `block` bytes. */
  function FirstBytes(size: nat, block: nat): (u: Upcall)
    requires block <= size
  {
    Data(0, MarkedServer(size)(SOME_URI)[..block], 0)
  }

  lemma AnsweredOnce(size: nat, block: nat)
    requires 0 < block < size
    ensures AllPermitted(MarkedServer(size), size, block, [START] + [FIRST])
    ensures Run(MarkedServer(size), size, block, [START] + [FIRST]) ==
            Downloading(2, block, [FirstBytes(size, block)])
  {
    hide Run, AllPermitted, Step, MarkedServer, FirstBytes;
    var first := FirstBytes(size, block);
    StartedAlone(MarkedServer(size), size, block);
    AnsweredAgain(size, block, 1, 0, [], 2);
    assert [] + [first] == [first];
    OneMore(MarkedServer(size), size, block, [START], FIRST, Downloading(1, 0, []), Downloading(2, block, [first]));
  }

  /** A block smaller than the client's: the second request asks for the first block again. */
  lemma SmallBlocksRepeat(size: nat, block: nat)
    requires 0 < block < size
    ensures AllPermitted(MarkedServer(size), size, block, TWO_ANSWERS)
    ensures Run(MarkedServer(size), size, block, TWO_ANSWERS) ==
            Downloading(3, block + block, [FirstBytes(size, block)] + [FirstBytes(size, block)])
  {
    hide Run, AllPermitted, Step, MarkedServer, FirstBytes;
    var first := FirstBytes(size, block);
    AnsweredOnce(size, block);
    AnsweredAgain(size, block, 2, block, [first], 3);
    OneMore(MarkedServer(size), size, block, [START] + [FIRST], SECOND, Downloading(2, block, [first]),
            Downloading(3, block + block, [first] + [first]));
  }

  lemma RepeatIsNoRun(size: nat, block: nat)
    requires 0 < block < size
    ensures var data := MarkedServer(size)(SOME_URI);
            !IsRunOf(data, Base(0, size), Delivered([FirstBytes(size, block)] + [FirstBytes(size, block)], 0))
  {
    var data := MarkedServer(size)(SOME_URI);
    var first := data[..block];
    var u := FirstBytes(size, block);
    DeliveredSnoc([], u, 0);
    DeliveredSnoc([u], u, 0);
    assert [] + [u] == [u];
    assert Delivered([u] + [u], 0) == first + first;
    assert (first + first)[block] == 1 && data[block] == 0;
  }

  /**
   * Downloads are contiguous in every interleaving exactly when the server answers with the client's
   * own block size. A server may answer with less than it was asked for, never with more.
   */
  lemma ContiguousExactly(size: nat, block: nat)
    requires 0 < block <= size
    ensures ContiguousInEveryRun(size, block) <==> block == size
  {
    hide Run, AllPermitted, Delivered, IsRunOf, MarkedServer, FirstBytes;
    if block == size {
      forall server, es, c | AllPermitted(server, size, block, es) && c in Run(server, size, block, es).book
        ensures var sys := Run(server, size, block, es);
                IsRunOf(server(sys.book[c].uri), Base(sys.book[c].start, size), Delivered(sys.client.upcalls, c))
      {
        RunKeeps(server, size, es);
      }
    } else {
      SmallBlocksRepeat(size, block);
      RepeatIsNoRun(size, block);
      var sys := Run(MarkedServer(size), size, block, TWO_ANSWERS);
      assert 0 in sys.book;
    }
  }
}
