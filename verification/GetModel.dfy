/** Blockwise GET downloads: the request list of the client, its reply handling, and a server. */
module GetModel {
  import opened Bytes

  /** An outstanding request; `received` is the offset it asked for. */
  datatype Request = Request(token: nat, uri: Text, received: nat, async: bool, context: nat)

  datatype Block2 = Absent | Block(number: nat, more: bool)

  datatype Options = NoOptions | Options(size2: Option<nat>, block2: Block2)

  /** `content` is the 2.05 response code. */
  datatype Reply = Reply(content: bool, payload: Text, options: Options)

  /** A call of the data or the error callback of a request. */
  datatype Upcall = Data(context: nat, payload: Text, total: nat) | Failed(context: nat)

  datatype Downloads = Downloads(requests: seq<Request>, upcalls: seq<Upcall>)

  /** What an attempt to send meets: the random token drawn, and whether the message went out. */
  datatype Attempt = Attempt(random: nat, sent: bool) {
    /** Token zero is replaced by one. */
    function Token(): (n: nat) {
      if random == 0 then 1 else random
    }
  }

  /** `send_get_data_request`. */
  function SendGet(d: Downloads, uri: Text, offset: nat, async: bool, context: nat, a: Attempt): (after: Downloads) {
    if a.sent then d.(requests := d.requests + [Request(a.Token(), uri, offset, async, context)]) else d
  }

  /** The first request with a token, or the length of the list. */
  function IndexOf(rs: seq<Request>, token: nat): (i: nat)
    ensures i <= |rs| && (i < |rs| ==> rs[i].token == token)
    ensures forall j :: 0 <= j < i ==> rs[j].token != token
  {
    if rs == [] || rs[0].token == token then 0 else IndexOf(rs[1..], token) + 1
  }

  /** `free_get_request_list` for one reply. */
  function Free(rs: seq<Request>, token: nat): (kept: seq<Request>) {
    var i := IndexOf(rs, token);
    if i < |rs| then rs[..i] + rs[i + 1..] else rs
  }

  /**
   * Whether a synchronous download goes on. An absent Block2 option is stored as -1, whose bit 3 is
   * set, so a reply that has options but no Block2 counts as "more".
   */
  predicate Continues(o: Options) {
    o.Options? && (o.block2.Absent? || o.block2.more)
  }

  function TotalSize(reply: Reply): (n: nat) {
    match reply.options
    case NoOptions => |reply.payload|
    case Options(Some(size), _) => size
    case Options(None, _) => 0
  }

  /** The callbacks and the next request that a reply to `r` causes. */
  function Consume(d: Downloads, r: Request, reply: Reply, next: Attempt): (after: Downloads) {
    if reply.content then
      var d1 := d.(upcalls := d.upcalls + [Data(r.context, reply.payload, TotalSize(reply))]);
      if !r.async && Continues(reply.options)
      then SendGet(d1, r.uri, r.received + |reply.payload|, r.async, r.context, next)
      else d1
    else d.(upcalls := d.upcalls + [Failed(r.context)])
  }

  /** The GET branch of `received_from_server_callback`. */
  function HandleReply(d: Downloads, token: nat, reply: Reply, next: Attempt): (after: Downloads) {
    var i := IndexOf(d.requests, token);
    if i == |d.requests| then d
    else
      var d1 := Consume(d, d.requests[i], reply, next);
      d1.(requests := Free(d1.requests, token))
  }

  // ----- the server

  function Min(x: nat, y: nat): (n: nat) {
    if x < y then x else y
  }

  /** The block number a request asks for. */
  function BlockNumber(r: Request, size: nat): (n: nat)
    requires size > 0
  {
    r.received / size
  }

  /**
   * The server's answer to a request for block `n` of the client's block size: at most `block` bytes from
   * there, numbered in the server's own block size, with a correct more bit and, if the server announces it,
   * the size of the data in Size2; or an error when there are none.
   */
  function Answer(data: Text, n: nat, size: nat, block: nat, announced: bool): (reply: Reply)
    requires size > 0 && block > 0
  {
    var at := n * size;
    if at < |data| then
      Reply(true, data[at..Min(at + block, |data|)],
            Options(if announced then Some(|data|) else Option.None, Block(at / block, at + block < |data|)))
    else Reply(false, [], NoOptions)
  }

  // ----- the client's methods

  class GetRequests {
    var requests: seq<Request>
    ghost var upcalls: seq<Upcall>

    ghost function State(): (d: Downloads)
      reads this
    {
      Downloads(requests, upcalls)
    }

    constructor ()
      ensures State() == Downloads([], [])
    {
      requests := [];
      upcalls := [];
    }

    method SendGetDataRequest(uri: Text, offset: nat, async: bool, context: nat, a: Attempt) returns (success: bool)
      modifies this
      ensures State() == SendGet(old(State()), uri, offset, async, context, a) && success == a.sent
    {
      var token := a.random;
      if token == 0 {
        token := token + 1;
      }
      if !a.sent {
        return false;
      }
      requests := requests + [Request(token, uri, offset, async, context)];
      return true;
    }

    method IsResponseToGetReq(token: nat) returns (found: bool, request: Request)
      ensures found <==> IndexOf(requests, token) < |requests|
      ensures found ==> request == requests[IndexOf(requests, token)]
    {
      request := Request(0, [], 0, false, 0);
      for k := 0 to |requests|
        invariant forall j :: 0 <= j < k ==> requests[j].token != token
      {
        if requests[k].token == token {
          return true, requests[k];
        }
      }
      return false, request;
    }

    method FreeGetRequest(token: nat)
      modifies this`requests
      ensures requests == Free(old(requests), token)
    {
      var k := 0;
      while k < |requests|
        invariant 0 <= k <= |requests|
        invariant requests == old(requests)
        invariant forall j :: 0 <= j < k ==> requests[j].token != token
      {
        if requests[k].token == token {
          requests := requests[..k] + requests[k + 1..];
          return;
        }
        k := k + 1;
      }
    }

    method HandleGetResponse(token: nat, reply: Reply, next: Attempt) returns (known: bool)
      modifies this
      ensures State() == HandleReply(old(State()), token, reply, next)
      ensures known <==> exists i :: 0 <= i < |old(requests)| && old(requests)[i].token == token
      ensures known && reply.content ==>
                && |upcalls| == |old(upcalls)| + 1 && old(upcalls) <= upcalls
                && upcalls[|old(upcalls)|].Data? && upcalls[|old(upcalls)|].payload == reply.payload
                && upcalls[|old(upcalls)|].total ==
                     if reply.options.NoOptions? then |reply.payload|
                     else if reply.options.size2.Some? then reply.options.size2.value else 0
    {
      hide Free;
      var r: Request;
      known, r := IsResponseToGetReq(token);
      if !known {
        return;
      }
      var totalSize := 0;
      if reply.options.Options? {
        if reply.options.size2.Some? {
          totalSize := reply.options.size2.value;
        }
      } else {
        totalSize := |reply.payload|;
      }
      if reply.content {
        var received := r.received + |reply.payload|;
        upcalls := upcalls + [Data(r.context, reply.payload, totalSize)];
        if !r.async && Continues(reply.options) {
          var _ := SendGetDataRequest(r.uri, received, r.async, r.context, next);
        }
      } else {
        upcalls := upcalls + [Failed(r.context)];
      }
      FreeGetRequest(token);
    }
  }
}
