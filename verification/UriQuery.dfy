/** The query parameters of the server address, split in place into C strings for registration. */
module UriQuery {
  import opened Bytes

  // ----- splitting as a function

  predicate HasNo(s: Text, c: byte) {
    forall i :: 0 <= i < |s| ==> s[i] != c
  }

  /** The first occurrence of a character, or the length. */
  function IndexOf(s: Text, c: byte): (i: nat)
    ensures i <= |s| && HasNo(s[..i], c) && (i < |s| ==> s[i] == c)
    decreases |s|
  {
    if s == [] || s[0] == c then 0
    else
      var i := IndexOf(s[1..], c) + 1;
      assert s[..i] == [s[0]] + s[1..][..i - 1];
      i
  }

  function Count(s: Text, c: byte): (n: nat)
    decreases |s|
  {
    if s == [] then 0 else (if s[0] == c then 1 else 0) + Count(s[1..], c)
  }

  /** The `&`-separated pieces of a query. */
  function Pieces(q: Text): (ps: seq<Text>)
    ensures |ps| > 0
    decreases |q|
  {
    var i := IndexOf(q, AMPERSAND);
    if i == |q| then [q] else [q[..i]] + Pieces(q[i + 1..])
  }

  /** Where the pieces start in a buffer that holds the query at `at`. */
  function Starts(q: Text, at: nat): (ss: seq<nat>)
    ensures |ss| == |Pieces(q)| && ss[0] == at
    decreases |q|
  {
    var i := IndexOf(q, AMPERSAND);
    if i == |q| then [at] else [at] + Starts(q[i + 1..], at + i + 1)
  }

  /** Joining the pieces restores the query, and no piece has a separator left. */
  lemma {:induction false} JoinRestores(q: Text)
    ensures Joined(Pieces(q), AMPERSAND) == q
    ensures forall k :: 0 <= k < |Pieces(q)| ==> HasNo(Pieces(q)[k], AMPERSAND)
    decreases |q|
  {
    var i := IndexOf(q, AMPERSAND);
    if i == |q| {
      assert q[..i] == q;
    } else {
      JoinRestores(q[i + 1..]);
      assert Pieces(q)[1..] == Pieces(q[i + 1..]);
      assert q == q[..i] + [AMPERSAND] + q[i + 1..];
    }
  }

  lemma {:induction false} CountAppend(s: Text, t: Text, c: byte)
    ensures Count(s + t, c) == Count(s, c) + Count(t, c)
    decreases |s|
  {
    if s == [] {
      assert s + t == t;
    } else {
      CountAppend(s[1..], t, c);
      assert (s + t)[1..] == s[1..] + t;
    }
  }

  predicate OneEach(ps: seq<Text>) {
    forall k :: 0 <= k < |ps| ==> Count(ps[k], EQUALS) == 1
  }

  /** If every piece has exactly one `=`, counting `=` counts the pieces. */
  lemma {:induction false} EqualsCountPieces(q: Text)
    requires OneEach(Pieces(q))
    ensures Count(q, EQUALS) == |Pieces(q)|
    decreases |q|
  {
    var i := IndexOf(q, AMPERSAND);
    var ps := Pieces(q);
    assert Count(ps[0], EQUALS) == 1;
    if i < |q| {
      var rest := Pieces(q[i + 1..]);
      assert ps[1..] == rest;
      assert OneEach(rest) by { assert forall k :: 0 <= k < |rest| ==> rest[k] == ps[k + 1]; }
      EqualsCountPieces(q[i + 1..]);
      assert q == q[..i] + ([AMPERSAND] + q[i + 1..]);
      CountAppend(q[..i], [AMPERSAND] + q[i + 1..], EQUALS);
      CountAppend([AMPERSAND], q[i + 1..], EQUALS);
      NoEquals();
    }
  }

  lemma NoEquals()
    ensures Count([AMPERSAND], EQUALS) == 0
  {
  }

  // ----- the parameters of a registration

  /** "mccv=1.2.6" */
  const MCC_VERSION: Text := [109, 99, 99, 118, 61, 49, 46, 50, 46, 54]

  const MAX_QUERY_COUNT := 10

  /** The two's complement reading of a count returned as a signed byte. */
  function AsInt8(n: nat): (value: int)
    ensures -128 <= value < 128 && (n - value) % 256 == 0
  {
    var b := n % 256;
    if b < 128 then b else b - 256
  }

  /** The count of parameters as the caller gets it. */
  function ParamCount(q: Text): (n: int) {
    AsInt8(Count(q, EQUALS))
  }

  /** The parameter list that is sent: one slot per counted `=` of the query and one for the version. */
  function Parameters(q: Text): (list: seq<Option<Text>>) {
    var n := ParamCount(q);
    var ps := Pieces(q);
    if n < 0 then []
    else seq(n + 1, k => if k == n then Some(MCC_VERSION) else if 0 <= k < |ps| then Some(ps[k]) else None)
  }

  function Intended(q: Text): (list: seq<Option<Text>>) {
    var ps := Pieces(q);
    seq(|ps| + 1, k => if 0 <= k < |ps| then Some(ps[k]) else Some(MCC_VERSION))
  }

  /** The list is the pieces and then the version exactly when as many `=` are counted as there are pieces. */
  lemma ParametersExactly(q: Text)
    ensures Parameters(q) == Intended(q) <==> ParamCount(q) == |Pieces(q)|
  {
    hide ParamCount, Pieces;
    assert |Intended(q)| == |Pieces(q)| + 1;
    if ParamCount(q) == |Pieces(q)| {
      assert Parameters(q) == Intended(q);
    } else if ParamCount(q) >= 0 {
      assert |Parameters(q)| == ParamCount(q) + 1;
    }
  }

  /** "a&b=1": one `=` for two pieces, so the version takes the place of the second. */
  const TWO_PIECES: Text := [97, 38, 98, 61, 49]

  lemma VersionReplacesPiece()
    ensures Parameters(TWO_PIECES) == [Some([97]), Some(MCC_VERSION)]
  {
    hide ParamCount, Pieces;
    FirstOfTwo();
    OneCounted();
  }

  lemma FirstOfTwo()
    ensures Pieces(TWO_PIECES)[0] == [97]
  {
    hide IndexOf;
    assert TWO_PIECES[..1] == [97] && TWO_PIECES[1] == AMPERSAND;
    FirstOccurrence(TWO_PIECES, AMPERSAND, 1);
  }

  lemma OneCounted()
    ensures ParamCount(TWO_PIECES) == 1
  {
    hide Count;
    var front: Text := [97, 38, 98];
    assert TWO_PIECES == front + ([EQUALS] + [49]);
    CountAppend(front, [EQUALS] + [49], EQUALS);
    CountAppend([EQUALS], [49], EQUALS);
    CountNone(front, EQUALS);
    CountNone([49], EQUALS);
    OneEquals();
  }

  lemma {:induction false} CountNone(s: Text, c: byte)
    requires HasNo(s, c)
    ensures Count(s, c) == 0
    decreases |s|
  {
    if s != [] {
      CountNone(s[1..], c);
    }
  }

  lemma OneEquals()
    ensures Count([EQUALS], EQUALS) == 1
  {
  }

  // ----- splitting in place

  /** A zero-terminated string stands at a place in memory. */
  predicate Holds(s: Text, at: nat, text: Text) {
    && HasNo(text, NUL)
    && at + |text| < |s|
    && s[at..at + |text|] == text
    && s[at + |text|] == NUL
  }

  /** A pointer into a character buffer, or null. */
  datatype Slot = Null | At(buffer: array<byte>, at: nat)

  /** In a string without inner terminators the only terminator is the last byte. */
  lemma TerminatorAt(s: Text, from: nat, k: nat)
    requires from <= k < |s| && s[|s| - 1] == NUL && HasNo(s[from..|s| - 1], NUL)
    ensures s[k] == NUL <==> k == |s| - 1
  {
    var inner := s[from..|s| - 1];
    assert forall i :: 0 <= i < |inner| ==> inner[i] == s[from + i];
  }

  /** `strchr` for a character other than the terminator. */
  method StrChr(a: array<byte>, from: nat, c: byte) returns (found: Option<nat>)
    requires c != NUL
    requires from < a.Length && a[a.Length - 1] == NUL && HasNo(a[from..a.Length - 1], NUL)
    ensures var i := IndexOf(a[from..a.Length - 1], c);
            found == if from + i < a.Length - 1 then Some(from + i) else None
  {
    ghost var s := a[from..a.Length - 1];
    var k := from;
    while a[k] != NUL
      invariant from <= k < a.Length
      invariant HasNo(a[from..k], c)
      decreases a.Length - k
    {
      assert a[k] == s[k - from];
      assert s[..k - from] == a[from..k];
      if a[k] == c {
        FirstOccurrence(s, c, k - from);
        return Some(k);
      }
      k := k + 1;
    }
    TerminatorAt(a[..], from, k);
    NoOccurrence(s, c);
    return None;
  }

  lemma FirstOccurrence(s: Text, c: byte, i: nat)
    requires i < |s| && s[i] == c && HasNo(s[..i], c)
    ensures IndexOf(s, c) == i
  {
    var j := IndexOf(s, c);
    assert forall k :: 0 <= k < i ==> s[..i][k] == s[k];
    assert forall k :: 0 <= k < j ==> s[..j][k] == s[k];
  }

  lemma NoOccurrence(s: Text, c: byte)
    requires HasNo(s, c)
    ensures IndexOf(s, c) == |s|
  {
  }

  /** `query_string`: the text after the first question mark, if there is any. */
  function Query(address: Text): (found: Option<Text>) {
    var i := IndexOf(address, QUESTION_MARK);
    if i + 1 < |address| then Some(address[i + 1..]) else None
  }

  method QueryString(a: array<byte>) returns (at: Option<nat>)
    requires a.Length > 0 && a[a.Length - 1] == NUL && HasNo(a[..a.Length - 1], NUL)
    ensures at.Some? <==> Query(a[..a.Length - 1]).Some?
    ensures at.Some? ==> at.value < a.Length - 1 && Some(a[at.value..a.Length - 1]) == Query(a[..a.Length - 1])
  {
    assert a[0..a.Length - 1] == a[..a.Length - 1];
    var found := StrChr(a, 0, QUESTION_MARK);
    if found.None? {
      return None;
    }
    var query := found.value + 1;
    assert a[..a.Length - 1][query..] == a[query..a.Length - 1];
    TerminatorAt(a[..], 0, query);
    if a[query] == NUL {
      return None;
    }
    return Some(query);
  }

  lemma {:induction false} CountFromFirst(s: Text, c: byte)
    ensures var i := IndexOf(s, c);
            Count(s, c) == if i < |s| then 1 + Count(s[i + 1..], c) else 0
    decreases |s|
  {
    if s != [] && s[0] != c {
      CountFromFirst(s[1..], c);
      var i := IndexOf(s, c);
      if i < |s| { assert s[i + 1..] == s[1..][i..]; }
    }
  }

  method QueryParamCount(a: array<byte>, from: nat) returns (count: int)
    requires from < a.Length && a[a.Length - 1] == NUL && HasNo(a[from..a.Length - 1], NUL)
    ensures count == AsInt8(Count(a[from..a.Length - 1], EQUALS))
  {
    var n, query := 0, from;
    while true
      invariant from <= query < a.Length
      invariant n + Count(a[query..a.Length - 1], EQUALS) == Count(a[from..a.Length - 1], EQUALS)
      decreases a.Length - query
    {
      ghost var rest := a[query..a.Length - 1];
      assert HasNo(rest, NUL) by {
        assert forall i :: 0 <= i < |rest| ==> rest[i] == a[from..a.Length - 1][query - from + i];
      }
      CountFromFirst(rest, EQUALS);
      var found := StrChr(a, query, EQUALS);
      if found.None? {
        return AsInt8(n);
      }
      n := n + 1;
      query := found.value + 1;
      assert rest[IndexOf(rest, EQUALS) + 1..] == a[query..a.Length - 1];
    }
  }

  /** Every one of the first `n` pieces stands terminated at its start. */
  predicate Terminated(s: Text, n: nat, q: Text, at: nat)
    requires n <= |Pieces(q)|
  {
    forall k :: 0 <= k < n ==> Holds(s, Starts(q, at)[k], Pieces(q)[k])
  }

  /** The slots from `index` on point at the first `n` pieces. */
  predicate PointAt(slots: seq<Slot>, index: nat, n: nat, a: array<byte>, q: Text, at: nat)
    requires n <= |Pieces(q)| && index + n <= |slots|
  {
    forall k :: 0 <= k < n ==> slots[index + k] == At(a, Starts(q, at)[k])
  }

  function Body(s: Text, from: nat): (t: Text)
    requires from < |s|
  {
    s[from..|s| - 1]
  }

  /** The pieces of the rest are the later pieces of the whole. */
  predicate Aligned(s0: Text, from: nat, query: nat, n: nat)
    requires from < |s0| && query < |s0| && from <= query
  {
    var q := Body(s0, from);
    && 1 <= n <= |Pieces(q)|
    && Pieces(Body(s0, query)) == Pieces(q)[n - 1..]
    && Starts(Body(s0, query), query) == Starts(q, from)[n - 1..]
  }

  /** The buffer `s` of `s0` with the first pieces split off, up to `query`. */
  ghost predicate SplitTo(s0: Text, s: Text, from: nat, query: nat, n: nat)
    requires from < |s0|
  {
    var q := Body(s0, from);
    && |s| == |s0| && from <= query < |s|
    && s[..from] == s0[..from] && s[query..] == s0[query..]
    && Aligned(s0, from, query, n)
    && Terminated(s[..query], n - 1, q, from)
  }

  lemma HoldsLonger(s: Text, t: Text, at: nat, text: Text)
    requires s <= t && Holds(s, at, text)
    ensures Holds(t, at, text)
  {
    assert forall i :: 0 <= i < |s| ==> t[i] == s[i];
  }

  lemma AlignedAdvances(s0: Text, from: nat, query: nat, n: nat)
    requires from <= query < |s0| && Aligned(s0, from, query, n)
    requires IndexOf(Body(s0, query), AMPERSAND) < |Body(s0, query)|
    ensures var i := IndexOf(Body(s0, query), AMPERSAND);
            var q := Body(s0, from);
            && Starts(q, from)[n - 1] == query && Pieces(q)[n - 1] == Body(s0, query)[..i]
            && query + i + 1 < |s0| && Aligned(s0, from, query + i + 1, n + 1)
            && Starts(q, from)[n] == query + i + 1
  {
    hide IndexOf, Pieces, Starts;
    var q, rest := Body(s0, from), Body(s0, query);
    var i := IndexOf(rest, AMPERSAND);
    var next := query + i + 1;
    assert Body(s0, next) == rest[i + 1..];
    PiecesFromFirst(rest, query);
    TailStep(Pieces(q), n, rest[..i], Pieces(rest[i + 1..]));
    TailStep(Starts(q, from), n, query, Starts(rest[i + 1..], next));
  }

  lemma PiecesFromFirst(q: Text, at: nat)
    requires IndexOf(q, AMPERSAND) < |q|
    ensures var i := IndexOf(q, AMPERSAND);
            && Pieces(q) == [q[..i]] + Pieces(q[i + 1..])
            && Starts(q, at) == [at] + Starts(q[i + 1..], at + i + 1)
            && |Starts(q[i + 1..], at + i + 1)| > 0 && Starts(q[i + 1..], at + i + 1)[0] == at + i + 1
  {
  }

  lemma TailStep<T>(all: seq<T>, n: nat, head: T, tail: seq<T>)
    requires 1 <= n <= |all| && all[n - 1..] == [head] + tail
    ensures all[n - 1] == head && all[n..] == tail && |all| == n + |tail|
    ensures tail != [] ==> all[n] == tail[0]
  {
    var rest := all[n - 1..];
    assert all[n - 1] == rest[0];
    assert all[n..] == rest[1..];
    assert tail != [] ==> all[n] == rest[1];
  }

  /** Overwriting the next separator splits off one more piece. */
  lemma SplitAdvances(s0: Text, s: Text, from: nat, query: nat, n: nat)
    requires from < |s0| && SplitTo(s0, s, from, query, n) && HasNo(Body(s0, from), NUL)
    requires IndexOf(Body(s0, query), AMPERSAND) < |Body(s0, query)|
    ensures var i := IndexOf(Body(s0, query), AMPERSAND);
            SplitTo(s0, s[query + i := NUL], from, query + i + 1, n + 1)
            && Starts(Body(s0, from), from)[n] == query + i + 1
  {
    hide IndexOf, Holds, Pieces, Starts, HasNo;
    var q := Body(s0, from);
    var i := IndexOf(Body(s0, query), AMPERSAND);
    var t, next := s[query + i := NUL], query + i + 1;
    AlignedAdvances(s0, from, query, n);
    assert t[next..] == s0[next..] by {
      assert t[next..] == s[query..][i + 1..] == s0[query..][i + 1..];
    }
    assert t[..from] == s[..from];
    assert s[..query] <= t[..next];
    forall k | 0 <= k < n ensures Holds(t[..next], Starts(q, from)[k], Pieces(q)[k]) {
      if k == n - 1 {
        NewPiece(s0, s, from, query, i);
      } else {
        HoldsLonger(s[..query], t[..next], Starts(q, from)[k], Pieces(q)[k]);
      }
    }
  }

  /** What is left of the query is untouched, and there is no terminator in it. */
  lemma RestAt(s0: Text, s: Text, from: nat, query: nat)
    requires from <= query < |s0| == |s| && s[query..] == s0[query..] && HasNo(Body(s0, from), NUL)
    ensures var rest := Body(s0, query);
            forall k :: 0 <= k < |rest| ==> rest[k] == s[query + k] && rest[k] != NUL
    ensures s[|s| - 1] == s0[|s| - 1]
  {
    var rest := Body(s0, query);
    forall k | 0 <= k < |rest|
      ensures rest[k] == s[query + k] && rest[k] != NUL
    {
      assert s[query..][k] == s0[query..][k];
      assert rest[k] == Body(s0, from)[query - from + k];
    }
    assert s[query..][|rest|] == s0[query..][|rest|];
  }

  lemma NewPiece(s0: Text, s: Text, from: nat, query: nat, i: nat)
    requires from <= query < |s0| == |s| && s[query..] == s0[query..] && HasNo(Body(s0, from), NUL)
    requires i < |Body(s0, query)|
    ensures Holds(s[query + i := NUL][..query + i + 1], query, Body(s0, query)[..i])
  {
    var rest, t := Body(s0, query), s[query + i := NUL][..query + i + 1];
    RestAt(s0, s, from, query);
    assert t[query..query + i] == rest[..i];
  }

  /** When no separator is left, all pieces stand terminated. */
  lemma SplitEnds(s0: Text, s: Text, from: nat, query: nat, n: nat)
    requires from < |s0| && SplitTo(s0, s, from, query, n)
    requires HasNo(Body(s0, from), NUL) && s0[|s0| - 1] == NUL
    requires IndexOf(Body(s0, query), AMPERSAND) == |Body(s0, query)|
    ensures n == |Pieces(Body(s0, from))| && Terminated(s, n, Body(s0, from), from)
  {
    hide IndexOf, Holds;
    var q, rest := Body(s0, from), Body(s0, query);
    assert Pieces(rest) == [rest];
    assert Pieces(q)[n - 1] == Pieces(q)[n - 1..][0] && Starts(q, from)[n - 1] == query;
    forall k | 0 <= k < n ensures Holds(s, Starts(q, from)[k], Pieces(q)[k]) {
      if k == n - 1 {
        LastPiece(s0, s, from, query);
      } else {
        HoldsLonger(s[..query], s, Starts(q, from)[k], Pieces(q)[k]);
      }
    }
  }

  lemma LastPiece(s0: Text, s: Text, from: nat, query: nat)
    requires from <= query < |s0| == |s| && s[query..] == s0[query..]
    requires HasNo(Body(s0, from), NUL) && s0[|s0| - 1] == NUL
    ensures Holds(s, query, Body(s0, query))
  {
    var rest := Body(s0, query);
    RestAt(s0, s, from, query);
    assert s[query..query + |rest|] == rest;
  }

  lemma SplitBegins(s0: Text, from: nat)
    requires from < |s0|
    ensures SplitTo(s0, s0, from, from, 1)
  {
  }

  /** The slots from `index` on point at the first `n` pieces, and the others are as they were. */
  predicate Filled(slots0: seq<Slot>, slots: seq<Slot>, index: nat, n: nat, a: array<byte>, q: Text, at: nat) {
    && |slots| == |slots0| && n <= |Pieces(q)| && index + n <= |slots|
    && PointAt(slots, index, n, a, q, at)
    && forall k :: 0 <= k < |slots| && !(index <= k < index + n) ==> slots[k] == slots0[k]
  }

  lemma FilledNext(slots0: seq<Slot>, slots: seq<Slot>, index: nat, n: nat, a: array<byte>, q: Text, at: nat, next: nat)
    requires Filled(slots0, slots, index, n, a, q, at)
    requires n < |Pieces(q)| && index + n < |slots| && Starts(q, at)[n] == next
    ensures Filled(slots0, slots[index + n := At(a, next)], index, n + 1, a, q, at)
  {
    hide Pieces, Starts;
  }

  lemma FilledFirst(slots: seq<Slot>, index: nat, a: array<byte>, q: Text, at: nat)
    requires index < |slots|
    ensures Filled(slots, slots[index := At(a, at)], index, 1, a, q, at)
  {
    hide Pieces, Starts;
    var ps, ss := Pieces(q), Starts(q, at);
  }

  /** `uri_query_parameters` refuses an empty query, splits, or runs past the slots. */
  datatype Splitting = Refused | Split | Overrun

  /**
   * `uri_query_parameters`: the rest of a buffer is split in place, and the slots point at the pieces. It
   * writes past the slots exactly when they are too few for the pieces.
   */
  method SplitParameters(a: array<byte>, from: nat, slots: array<Slot>, index: nat) returns (r: Splitting)
    requires from < a.Length && a[a.Length - 1] == NUL && HasNo(Body(a[..], from), NUL)
    modifies a, slots
    ensures r.Refused? <==> from == a.Length - 1
    ensures r.Refused? ==> a[..] == old(a[..]) && slots[..] == old(slots[..])
    ensures r.Overrun? <==> from < a.Length - 1 && index + old(|Pieces(Body(a[..], from))|) > slots.Length
    ensures r.Split? ==>
      var q := old(Body(a[..], from));
      && a[..from] == old(a[..from])
      && Terminated(a[..], |Pieces(q)|, q, from)
      && Filled(old(slots[..]), slots[..], index, |Pieces(q)|, a, q, from)
  {
    hide IndexOf, Terminated, Pieces, Starts, HasNo, SplitTo, Filled, PointAt;
    ghost var s0, slots0 := a[..], slots[..];
    ghost var q := Body(s0, from);
    TerminatorAt(s0, from, from);
    if a[from] == NUL {
      return Refused;
    }
    if index >= slots.Length {
      return Overrun;
    }
    FilledFirst(slots0, index, a, q, from);
    slots[index] := At(a, from);
    assert slots[..] == slots0[index := At(a, from)];
    var query, n := from, 1;
    SplitBegins(s0, from);
    while true
      invariant SplitTo(s0, a[..], from, query, n) && query < a.Length
      invariant Filled(slots0, slots[..], index, n, a, q, from)
      decreases a.Length - query
    {
      ghost var s, filled := a[..], slots[..];
      RestOfBuffer(s0, s, from, query, n);
      assert a[query..a.Length - 1] == Body(s, query);
      var found := StrChr(a, query, AMPERSAND);
      if found.None? {
        SplitEnds(s0, s, from, query, n);
        FilledFits(slots0, filled, index, n, a, q, from);
        PrefixKept(s0, s, from, query, n);
        return Split;
      }
      SplitAdvances(s0, s, from, query, n);
      MorePieces(s0, s, from, query, n);
      if index + n >= slots.Length {
        return Overrun;
      }
      FilledNext(slots0, filled, index, n, a, q, from, found.value + 1);
      a[found.value] := NUL;
      assert a[..] == s[found.value := NUL];
      query := found.value + 1;
      slots[index + n] := At(a, query);
      assert slots[..] == filled[index + n := At(a, query)];
      n := n + 1;
    }
  }

  lemma FilledFits(slots0: seq<Slot>, slots: seq<Slot>, index: nat, n: nat, a: array<byte>, q: Text, at: nat)
    requires Filled(slots0, slots, index, n, a, q, at)
    ensures index + n <= |slots|
  {
  }

  lemma PrefixKept(s0: Text, s: Text, from: nat, query: nat, n: nat)
    requires from < |s0| && SplitTo(s0, s, from, query, n)
    ensures s[..from] == s0[..from]
  {
  }

  /** A separator that is still there means one more piece. */
  lemma MorePieces(s0: Text, s: Text, from: nat, query: nat, n: nat)
    requires from < |s0| && SplitTo(s0, s, from, query, n)
    requires IndexOf(Body(s0, query), AMPERSAND) < |Body(s0, query)|
    ensures n < |Pieces(Body(s0, from))|
    ensures query + IndexOf(Body(s0, query), AMPERSAND) + 1 < |s|
  {
    hide IndexOf, Pieces, Starts, Terminated;
    AlignedAdvances(s0, from, query, n);
  }

  lemma RestOfBuffer(s0: Text, s: Text, from: nat, query: nat, n: nat)
    requires from < |s0| && SplitTo(s0, s, from, query, n) && HasNo(Body(s0, from), NUL) && s0[|s0| - 1] == NUL
    ensures from <= query < |s| == |s0|
    ensures Body(s, query) == Body(s0, query) && HasNo(Body(s, query), NUL) && s[|s| - 1] == NUL
    ensures IndexOf(Body(s0, query), AMPERSAND) <= |Body(s0, query)|
  {
    hide Aligned, Terminated, IndexOf;
    var rest := Body(s0, query);
    RestAt(s0, s, from, query);
    assert Body(s, query) == rest;
  }
}
