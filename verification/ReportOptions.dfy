/** The text of a notification attribute query: its options, and the buffers of 20 bytes they are copied into. */
module ReportOptions {
  import opened Bytes
  import opened UriQuery

  const MAX_OPTIONS := 5
  const BUFFER_SIZE := 20

  // ----- the options of a query

  function Cut(t: Text): (r: Text)
    ensures r <= t && |r| < BUFFER_SIZE && (r == t || |r| == BUFFER_SIZE - 1)
  {
    if |t| < BUFFER_SIZE then t else t[..BUFFER_SIZE - 1]
  }

  function AllCut(ts: seq<Text>): (rs: seq<Text>)
    ensures |rs| == |ts|
  {
    seq(|ts|, k requires 0 <= k < |ts| => Cut(ts[k]))
  }

  /** At most five pieces, without an empty one at the end, each cut to 19 characters. One piece alone is not cut. */
  function Options(query: Text): (os: seq<Text>) {
    var ps := Pieces(query);
    if |ps| == 1 then [query]
    else if |ps| > MAX_OPTIONS then AllCut(ps[..MAX_OPTIONS])
    else if ps[|ps| - 1] == [] then AllCut(ps[..|ps| - 1])
    else AllCut(ps)
  }

  lemma {:induction false} PiecesThenEmpty(q: Text)
    ensures Pieces(q + [AMPERSAND]) == Pieces(q) + [[]]
    decreases |q|
  {
    hide IndexOf, Pieces;
    var all := q + [AMPERSAND];
    var i := IndexOf(q, AMPERSAND);
    FirstOccurrence(all, AMPERSAND, i);
    OneOrMore(q);
    PiecesFromFirst(all, 0);
    assert all[..i] == q[..i];
    if i == |q| {
      assert all[i + 1..] == [];
      NoPiece();
    } else {
      assert all[i + 1..] == q[i + 1..] + [AMPERSAND];
      PiecesFromFirst(q, 0);
      PiecesThenEmpty(q[i + 1..]);
    }
  }

  lemma NoPiece()
    ensures Pieces([]) == [[]]
  {
    OneOrMore([]);
  }

  /** A separator after the last of several options makes no difference. */
  lemma TrailingSeparator(q: Text)
    requires |Pieces(q)| > 1 && Pieces(q)[|Pieces(q)| - 1] != []
    ensures Options(q + [AMPERSAND]) == Options(q)
  {
    hide Pieces, Cut;
    PiecesThenEmpty(q);
    var ps := Pieces(q);
    var more := ps + [[]];
    assert more[..|ps|] == ps;
    if |ps| >= MAX_OPTIONS {
      assert more[..MAX_OPTIONS] == ps[..MAX_OPTIONS];
      assert |ps| == MAX_OPTIONS ==> ps[..MAX_OPTIONS] == ps;
    }
  }

  /** The loops of `parse_notification_attribute` over the text. */
  method SplitQuery(query: Text) returns (options: seq<Text>)
    ensures options == Options(query)
  {
    hide Pieces, IndexOf, Cut;
    var sep := IndexOf(query, AMPERSAND);
    OneOrMore(query);
    if sep == |query| {
      return [query];
    }
    ghost var ps := Pieces(query);
    var rest := query;
    options := [];
    while sep < |rest| && |options| < MAX_OPTIONS
      invariant |options| <= MAX_OPTIONS && |options| < |ps|
      invariant options == AllCut(ps[..|options|])
      invariant Pieces(rest) == ps[|options|..]
      invariant sep == IndexOf(rest, AMPERSAND)
      decreases MAX_OPTIONS - |options|
    {
      PiecesFromFirst(rest, 0);
      OneMore(ps, |options|, rest[..sep], Pieces(rest[sep + 1..]));
      options := options + [Cut(rest[..sep])];
      rest := rest[sep + 1..];
      sep := IndexOf(rest, AMPERSAND);
    }
    OneOrMore(rest);
    if |options| < MAX_OPTIONS {
      LastOne(ps, |options|, rest);
      if |rest| > 0 {
        options := options + [Cut(rest)];
      }
    }
  }

  lemma OneOrMore(q: Text)
    ensures IndexOf(q, AMPERSAND) == |q| ==> Pieces(q) == [q]
    ensures IndexOf(q, AMPERSAND) < |q| ==> |Pieces(q)| > 1
  {
    hide IndexOf;
  }

  lemma OneMore(ps: seq<Text>, n: nat, piece: Text, rest: seq<Text>)
    requires n < |ps| && ps[n..] == [piece] + rest && rest != []
    ensures n + 1 < |ps| && ps[n + 1..] == rest
    ensures AllCut(ps[..n + 1]) == AllCut(ps[..n]) + [Cut(piece)]
  {
    hide Cut;
    assert ps[n] == ps[n..][0] == piece;
    assert ps[n + 1..] == ps[n..][1..] == rest;
  }

  lemma LastOne(ps: seq<Text>, n: nat, rest: Text)
    requires n < |ps| && ps[n..] == [rest]
    ensures |ps| == n + 1 && ps[n] == rest && ps[..n] == ps[..|ps| - 1]
    ensures AllCut(ps) == AllCut(ps[..n]) + [Cut(rest)]
  {
    hide Cut;
    assert |ps[n..]| == 1 && ps[n] == ps[n..][0];
  }

  // ----- the copies of an option

  /** Every access of `set_notification_attribute` to its two buffers stays inside them. */
  predicate OptionFits(option: Text) {
    var i := IndexOf(option, EQUALS);
    if i < |option| then i <= BUFFER_SIZE && |option| - i - 1 < BUFFER_SIZE else |option| < BUFFER_SIZE
  }

  /** The name and the value of an option, or an access outside the buffers. */
  datatype Copied = Copied(name: Text, value: Text) | OutOfBuffer

  /** `memcpy` into a buffer, which says whether all of it fits. */
  method CopyInto(buffer: array<byte>, t: Text) returns (fits: bool)
    modifies buffer
    ensures fits <==> |t| <= buffer.Length
    ensures fits ==> buffer[..] == t + old(buffer[|t|..])
  {
    var k := 0;
    while k < |t|
      invariant k <= |t| && k <= buffer.Length
      invariant buffer[..k] == t[..k] && buffer[k..] == old(buffer[k..])
    {
      if k == buffer.Length {
        return false;
      }
      buffer[k] := t[k];
      assert buffer[k + 1..] == old(buffer[k..])[1..];
      k := k + 1;
    }
    assert t[..k] == t && buffer[..] == buffer[..k] + buffer[k..];
    return true;
  }

  /** `strlen` on a buffer: the position of the first zero, if it holds one. */
  method Length(buffer: array<byte>) returns (n: nat, terminated: bool)
    ensures n <= buffer.Length && HasNo(buffer[..n], NUL)
    ensures terminated <==> n < buffer.Length
    ensures terminated ==> buffer[n] == NUL
  {
    n := 0;
    while n < buffer.Length && buffer[n] != NUL
      invariant n <= buffer.Length && HasNo(buffer[..n], NUL)
    {
      assert buffer[..n + 1] == buffer[..n] + [buffer[n]];
      n := n + 1;
    }
    return n, n < buffer.Length;
  }

  /** The first lines of `set_notification_attribute`. */
  method CopyOption(option: Text) returns (r: Copied)
    requires HasNo(option, NUL)
    ensures r.OutOfBuffer? <==> !OptionFits(option)
    ensures var i := IndexOf(option, EQUALS);
            r.Copied? ==> r == if i < |option| then Copied(option[..i], option[i + 1..]) else Copied(option, [])
  {
    hide IndexOf;
    var attribute := new byte[BUFFER_SIZE](_ => NUL);
    var value := new byte[BUFFER_SIZE](_ => NUL);
    var pos := IndexOf(option, EQUALS);
    if pos < |option| {
      ghost var text := option[pos + 1..];
      var fits := CopyInto(attribute, option[..pos]);
      if !fits {
        return OutOfBuffer;
      }
      fits := CopyInto(value, option[pos + 1..]);
      if !fits {
        return OutOfBuffer;
      }
      var n, terminated := Length(value);
      TextLength(value[..], text, n);
      if !terminated {
        return OutOfBuffer;
      }
      return Copied(option[..pos], value[..n]);
    } else {
      var fits := CopyInto(attribute, option + [NUL]);
      return if fits then Copied(option, []) else OutOfBuffer;
    }
  }

  lemma TextLength(buffer: Text, text: Text, n: nat)
    requires |text| <= |buffer| && buffer[..|text|] == text && HasNo(text, NUL)
    requires forall k :: |text| <= k < |buffer| ==> buffer[k] == NUL
    requires n <= |buffer| && HasNo(buffer[..n], NUL) && (n < |buffer| ==> buffer[n] == NUL)
    ensures n == |text|
  {
    assert |text| < |buffer| ==> buffer[|text|] == NUL;
    Nonzero(buffer, |text|);
    Nonzero(buffer, n);
  }

  lemma Nonzero(buffer: Text, n: nat)
    requires n <= |buffer| && HasNo(buffer[..n], NUL)
    ensures forall k :: 0 <= k < n ==> buffer[k] != NUL
  {
    assert forall k :: 0 <= k < n ==> buffer[..n][k] == buffer[k];
  }

  lemma CutFits(t: Text)
    ensures OptionFits(Cut(t))
  {
    hide IndexOf;
  }

  /** The accesses to the buffers stay inside exactly when there is a separator, or the only option fits. */
  lemma QueryFitsExactly(query: Text)
    ensures (forall o :: o in Options(query) ==> OptionFits(o)) <==> AMPERSAND in query || OptionFits(query)
  {
    hide Pieces, IndexOf, OptionFits, Cut;
    OneOrMore(query);
    Separated(query);
    forall t ensures OptionFits(Cut(t)) {
      CutFits(t);
    }
    if |Pieces(query)| == 1 {
      assert query in Options(query);
    }
  }

  lemma Separated(query: Text)
    ensures IndexOf(query, AMPERSAND) < |query| <==> AMPERSAND in query
  {
    var i := IndexOf(query, AMPERSAND);
    if i == |query| {
      assert query[..i] == query;
    }
  }

  /** "pmin=" and twenty digits. */
  const LONG_PMIN: Text := [112, 109, 105, 110, 61] + seq(20, _ => 49)

  lemma LongPminDoesNotFit()
    ensures AMPERSAND !in LONG_PMIN && !OptionFits(LONG_PMIN)
  {
    hide IndexOf;
    assert LONG_PMIN[4] == EQUALS && HasNo(LONG_PMIN[..4], EQUALS);
    FirstOccurrence(LONG_PMIN, EQUALS, 4);
  }
}
