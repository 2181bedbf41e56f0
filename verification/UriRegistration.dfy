/** `parse_and_send_uri_query_parameters`: the stored server address, split in place and put back. */
module UriRegistration {
  import opened Bytes
  import opened UriQuery

  lemma VersionHasOneEquals()
    ensures Count(MCC_VERSION, EQUALS) == 1
  {
    hide Count;
    var name, number: Text := [109, 99, 99, 118], [49, 46, 50, 46, 54];
    assert MCC_VERSION == name + ([EQUALS] + number);
    CountAppend(name, [EQUALS] + number, EQUALS);
    CountAppend([EQUALS], number, EQUALS);
    CountNone(name, EQUALS);
    CountNone(number, EQUALS);
    OneEquals();
  }

  lemma VersionIsOnePiece()
    ensures HasNo(MCC_VERSION, NUL) && Pieces(MCC_VERSION) == [MCC_VERSION]
  {
    hide IndexOf;
    var v := MCC_VERSION;
    assert HasNo(v, AMPERSAND);
    NoOccurrence(v, AMPERSAND);
    assert Pieces(v) == [v];
  }

  /**
   * What becomes of a registration: no parameters, a list of them, a write or read past the slots, or a
   * read through a slot that is null.
   */
  datatype Sending = Nothing | Carrying(list: seq<Option<Text>>) | OutOfSlots | NullParameter

  /** The pieces and the version have slots. */
  predicate Fits(q: Text) {
    |Pieces(q)| <= MAX_QUERY_COUNT && ParamCount(q) < MAX_QUERY_COUNT
  }

  /** A slot below the count stays empty. A count below -1 is a huge unsigned number. */
  predicate LeavesGap(q: Text) {
    ParamCount(q) > |Pieces(q)| || (ParamCount(q) < -1 && |Pieces(q)| < MAX_QUERY_COUNT)
  }

  function Registered(address: Text): (s: Sending) {
    match Query(address)
    case None => Nothing
    case Some(q) =>
      if ParamCount(q) == 0 then Nothing
      else if !Fits(q) then OutOfSlots
      else if LeavesGap(q) then NullParameter
      else if ParamCount(q) < -1 then OutOfSlots
      else Carrying(Parameters(q))
  }

  /** What the slots show when the pieces and the version are in them. */
  function InSlots(q: Text): (shown: seq<Option<Text>>)
    ensures |shown| == MAX_QUERY_COUNT
  {
    var n, ps := ParamCount(q), Pieces(q);
    seq(MAX_QUERY_COUNT, k => if k == n then Some(MCC_VERSION) else if 0 <= k < |ps| then Some(ps[k]) else None)
  }

  lemma SlotsShowParameters(q: Text)
    requires 0 <= ParamCount(q) < MAX_QUERY_COUNT
    ensures InSlots(q)[..ParamCount(q) + 1] == Parameters(q)
  {
    hide ParamCount, Pieces;
  }

  /** The reader of `n` slots meets an empty one. */
  predicate Gap(shown: seq<Option<Text>>, n: nat) {
    exists k :: 0 <= k < |shown| && k < n && shown[k].None?
  }

  /** Conversion to `uint32_t`. */
  function AsUnsigned(n: int): (r: nat)
    requires -0x1_0000_0000 <= n
  {
    if n < 0 then n + 0x1_0000_0000 else n
  }

  lemma GapExactly(q: Text)
    requires Fits(q)
    ensures -128 <= ParamCount(q)
    ensures Gap(InSlots(q), AsUnsigned(ParamCount(q) + 1)) <==> LeavesGap(q)
  {
    hide Pieces, Count;
    var n, p := ParamCount(q), |Pieces(q)|;
    if LeavesGap(q) {
      assert InSlots(q)[p].None?;
    }
  }

  /** "a=b=c": two `=` in one piece, so the second slot is empty. */
  const TWO_EQUALS: Text := [97, 61, 98, 61, 99]

  lemma TwoEqualsReadNull()
    ensures Registered([QUESTION_MARK] + TWO_EQUALS) == NullParameter
  {
    hide ParamCount, Pieces, IndexOf;
    var address := [QUESTION_MARK] + TWO_EQUALS;
    assert address[..0] == [] && address[1..] == TWO_EQUALS;
    FirstOccurrence(address, QUESTION_MARK, 0);
    TwoCounted();
    OnePiece();
  }

  lemma OnePiece()
    ensures |Pieces(TWO_EQUALS)| == 1
  {
    hide IndexOf;
    assert HasNo(TWO_EQUALS, AMPERSAND);
    NoOccurrence(TWO_EQUALS, AMPERSAND);
  }

  lemma TwoCounted()
    ensures ParamCount(TWO_EQUALS) == 2
  {
    hide Count;
    var a, b, c: Text := [97], [98], [99];
    assert TWO_EQUALS == a + ([EQUALS] + (b + ([EQUALS] + c)));
    CountAppend(a, [EQUALS] + (b + ([EQUALS] + c)), EQUALS);
    CountAppend([EQUALS], b + ([EQUALS] + c), EQUALS);
    CountAppend(b, [EQUALS] + c, EQUALS);
    CountAppend([EQUALS], c, EQUALS);
    CountNone(a, EQUALS);
    CountNone(b, EQUALS);
    CountNone(c, EQUALS);
    OneEquals();
  }

  /**
   * With one `=` in every piece, a registration carries the pieces in order and then the version exactly
   * when there are fewer pieces than slots. (256 of them are not even noticed.)
   */
  lemma RegisteredAsIntended(address: Text)
    requires Query(address).Some? && OneEach(Pieces(Query(address).value))
    ensures var q := Query(address).value;
            Registered(address) ==
            if |Pieces(q)| < MAX_QUERY_COUNT then Carrying(Intended(q))
            else if |Pieces(q)| % 256 == 0 then Nothing
            else OutOfSlots
  {
    hide Pieces, OneEach, Count, Intended, Parameters;
    var q := Query(address).value;
    EqualsCountPieces(q);
    ParametersExactly(q);
  }

  /** The shortest query with `n` parameters. */
  function BareParameters(n: nat): (q: Text)
    requires n > 0
    ensures q != []
  {
    if n == 1 then [EQUALS] else [EQUALS] + [AMPERSAND] + BareParameters(n - 1)
  }

  lemma BareFirst(rest: Text)
    ensures IndexOf([EQUALS] + [AMPERSAND] + rest, AMPERSAND) == 1
    ensures ([EQUALS] + [AMPERSAND] + rest)[..1] == [EQUALS] && ([EQUALS] + [AMPERSAND] + rest)[2..] == rest
  {
    hide IndexOf;
    var q := [EQUALS] + [AMPERSAND] + rest;
    assert q[..1] == [EQUALS] && q[2..] == rest;
    FirstOccurrence(q, AMPERSAND, 1);
  }

  lemma {:induction false} BarePieces(n: nat)
    requires n > 0
    ensures |Pieces(BareParameters(n))| == n && OneEach(Pieces(BareParameters(n)))
  {
    hide Count, IndexOf, Pieces;
    OneEquals();
    if n == 1 {
      BarePiece();
    } else {
      BarePieces(n - 1);
      BareFirst(BareParameters(n - 1));
      PiecesFromFirst(BareParameters(n), 0);
    }
  }

  lemma BarePiece()
    ensures Pieces([EQUALS]) == [[EQUALS]]
  {
    hide IndexOf;
    NoOccurrence([EQUALS], AMPERSAND);
  }

  /** Ten parameters already leave no slot for the version. */
  lemma TenParametersOverrun()
    ensures Registered([QUESTION_MARK] + BareParameters(10)) == OutOfSlots
  {
    hide Pieces, OneEach, Count, BareParameters, Registered;
    var q := BareParameters(10);
    BarePieces(10);
    var address := [QUESTION_MARK] + q;
    assert IndexOf(address, QUESTION_MARK) == 0 && address[1..] == q;
    RegisteredAsIntended(address);
  }

  /** What a slot shows to its reader. */
  ghost predicate Shows(slot: Slot, t: Option<Text>)
    reads if slot.At? then {slot.buffer} else {}
  {
    if slot.Null? then t.None? else t.Some? && Holds(slot.buffer[..], slot.at, t.value)
  }

  /** The receiver reads a string up to its terminator. */
  method ReadString(a: array<byte>, at: nat, ghost text: Text) returns (t: Text)
    requires Holds(a[..], at, text)
    ensures t == text
  {
    t := [];
    var k := at;
    ghost var all := a[..];
    assert forall i :: 0 <= i < |text| ==> a[at + i] == text[i] by { assert all[at..at + |text|] == text; }
    while a[k] != NUL
      invariant at <= k <= at + |text| && t == text[..k - at]
      decreases at + |text| - k
    {
      t := t + [a[k]];
      k := k + 1;
    }
  }

  /** The receiver reads all slots, meets an empty one, or goes past the end. */
  datatype Reading = All(texts: seq<Option<Text>>) | Empty | Past

  method ReadSlots(slots: array<Slot>, n: nat, ghost shown: seq<Option<Text>>) returns (r: Reading)
    requires |shown| == slots.Length
    requires forall k :: 0 <= k < slots.Length ==> Shows(slots[k], shown[k])
    ensures r.Empty? <==> Gap(shown, n)
    ensures r.Past? <==> !Gap(shown, n) && n > slots.Length
    ensures r.All? ==> r.texts == shown[..n]
  {
    var texts := [];
    var k := 0;
    while k < n
      invariant k <= n && k <= slots.Length && texts == shown[..k]
      invariant forall j :: 0 <= j < k ==> shown[j].Some?
      decreases n - k
    {
      if k == slots.Length {
        return Past;
      }
      match slots[k] {
        case Null =>
          assert shown[k].None?;
          return Empty;
        case At(buffer, at) =>
          var t := ReadString(buffer, at, shown[k].value);
          texts := texts + [Some(t)];
      }
      k := k + 1;
    }
    return All(texts);
  }

  class ServerAddress {
    var address: array<byte>

    ghost predicate Valid()
      reads this, address
    {
      address.Length > 0 && address[address.Length - 1] == NUL && HasNo(Stored(), NUL)
    }

    ghost function Stored(): (t: Text)
      requires address.Length > 0
      reads this, address
    {
      address[..address.Length - 1]
    }

    static method Copy(a: array<byte>) returns (b: array<byte>)
      ensures fresh(b) && b[..] == a[..]
    {
      b := new byte[a.Length];
      for k := 0 to a.Length
        invariant forall j :: 0 <= j < k ==> b[j] == a[j]
      {
        b[k] := a[k];
      }
    }

    static method Version() returns (b: array<byte>)
      ensures fresh(b) && b[..] == MCC_VERSION + [NUL]
    {
      b := new byte[|MCC_VERSION| + 1];
      for k := 0 to |MCC_VERSION|
        invariant forall j :: 0 <= j < k ==> b[j] == MCC_VERSION[j]
      {
        b[k] := MCC_VERSION[k];
      }
      b[|MCC_VERSION|] := NUL;
    }

    /** The pieces of the query and then the version are stored in the slots, or run past them. */
    method FillSlots(query: nat, slots: array<Slot>, count: int) returns (overrun: bool, total: int)
      requires Valid() && query < address.Length - 1
      requires slots.Length == MAX_QUERY_COUNT && forall k :: 0 <= k < slots.Length ==> slots[k] == Null
      requires count == ParamCount(Stored()[query..])
      modifies address, slots
      ensures overrun <==> old(|Pieces(Stored()[query..])|) > MAX_QUERY_COUNT || count >= MAX_QUERY_COUNT
      ensures !overrun ==> total == count + 1
      ensures !overrun ==> forall k :: 0 <= k < slots.Length ==> Shows(slots[k], InSlots(old(Stored()[query..]))[k])
    {
      hide Count, Pieces, Starts, Holds, ParamCount, HasNo;
      ghost var q := Stored()[query..];
      assert Body(address[..], query) == q;
      assert HasNo(q, NUL) by { SuffixHasNo(Stored(), query, NUL); }
      total := 0;
      var split := SplitParameters(address, query, slots, 0);
      if split.Overrun? {
        return true, 0;
      }
      ghost var after := slots[..];
      var version := Version();
      assert Body(version[..], 0) == MCC_VERSION;
      VersionIsOnePiece();
      VersionHasOneEquals();
      VersionStart();
      if count >= 0 {
        split := SplitParameters(version, 0, slots, count);
        if split.Overrun? {
          return true, 0;
        }
      }
      forall k | 0 <= k < slots.Length ensures Shows(slots[k], InSlots(q)[k]) {
        if k == count {
          assert Holds(version[..], Starts(MCC_VERSION, 0)[0], Pieces(MCC_VERSION)[0]);
          assert slots[..][count + 0] == At(version, Starts(MCC_VERSION, 0)[0]);
        } else {
          assert slots[..][k] == after[k];
          if k < |Pieces(q)| {
            assert Holds(address[..], Starts(q, query)[k], Pieces(q)[k]);
            assert after[0 + k] == At(address, Starts(q, query)[k]);
          }
        }
      }
      return false, count + 1;
    }

    /**
     * The parameters that go out are those of the stored address, and the address is the same
     * afterwards, so that registering again sends the same parameters. The slots are overrun, or an empty
     * one is read, exactly as `Registered` says.
     */
    method ParseAndSend(accepted: bool) returns (msgSent: bool, sending: Sending)
      requires Valid()
      modifies this, address
      ensures sending == Registered(old(Stored()))
      ensures !sending.OutOfSlots? && !sending.NullParameter? ==> Valid() && Stored() == old(Stored())
      ensures msgSent <==> sending.Carrying? && accepted
    {
      hide Count, Pieces, HasNo, Parameters, InSlots, Gap, IndexOf, ParamCount, Shows;
      msgSent, sending := false, Nothing;
      ghost var stored := Stored();
      var addressCopy := Copy(address);
      assert addressCopy[..addressCopy.Length - 1] == stored;
      assert address[0..address.Length - 1] == stored;
      var query := QueryString(address);
      if query.Some? {
        ghost var q := stored[query.value..];
        assert address[query.value..address.Length - 1] == q;
        assert HasNo(q, NUL) by { SuffixHasNo(stored, query.value, NUL); }
        var count := QueryParamCount(address, query.value);
        CountIs(q);
        if count != 0 {
          var slots := new Slot[MAX_QUERY_COUNT](_ => Null);
          var overrun, total := FillSlots(query.value, slots, count);
          if overrun {
            return false, OutOfSlots;
          }
          GapExactly(q);
          var reading := ReadSlots(slots, AsUnsigned(total), InSlots(q));
          match reading {
            case Empty => return false, NullParameter;
            case Past => return false, OutOfSlots;
            case All(texts) =>
              ReadParameters(q);
              sending, msgSent := Carrying(texts), accepted;
              address := addressCopy;
          }
        }
      }
    }
  }

  lemma CountIs(q: Text)
    ensures ParamCount(q) == AsInt8(Count(q, EQUALS))
  {
  }

  lemma SuffixHasNo(s: Text, from: nat, c: byte)
    requires from <= |s| && HasNo(s, c)
    ensures HasNo(s[from..], c)
  {
  }

  lemma ReadParameters(q: Text)
    requires -1 <= ParamCount(q) < MAX_QUERY_COUNT
    ensures InSlots(q)[..AsUnsigned(ParamCount(q) + 1)] == Parameters(q)
  {
    hide ParamCount, Pieces;
    if ParamCount(q) >= 0 {
      SlotsShowParameters(q);
    }
  }

  lemma VersionStart()
    ensures |Starts(MCC_VERSION, 0)| == 1 && Starts(MCC_VERSION, 0)[0] == 0
  {
    VersionIsOnePiece();
  }
}
