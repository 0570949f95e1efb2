/**
 * Message framing: tags, length-delimited records, the depth-counting skipper for unknown
 * fields, and the stream of records that one Unmarshal loop sees.
 */
module Wire {
  import opened Common
  import opened Varint

  // ----- skipping unknown records -----------------------------------------

  /** How far the payload of one record reaches: the index behind it, which may lie past the data. */
  function PayloadEnd(data: Bytes, i: nat, wireType: nat): (r: Result<nat, WireError>)
    requires i <= |data|
    ensures r.Ok? ==> r.value >= i
  {
    if wireType == 0 then
      match ReadVarint(data, i)
      case Err(e) => Err(e)
      case Ok(Read(_, next)) => Ok(next)
    else if wireType == 1 then Ok(i + 8)
    else if wireType == 2 then
      match ReadVarint(data, i)
      case Err(e) => Err(e)
      case Ok(Read(v, next)) => if v >= TWO63 then Err(InvalidLength) else Ok(next + v)
    else if wireType == 3 || wireType == 4 then Ok(i)
    else if wireType == 5 then Ok(i + 4)
    else Err(IllegalWireType)
  }

  /** skipGenesis from index `i` on, inside `depth` open groups. */
  function SkipFrom(data: Bytes, i: nat, depth: nat): (r: Result<nat, WireError>)
    ensures r.Ok? ==> r.value > i && r.value < TWO63
    decreases |data| - i
  {
    if i >= |data| then Err(UnexpectedEOF)
    else
      match ReadVarint(data, i)
      case Err(e) => Err(e)
      case Ok(Read(wire, next)) =>
        var wireType := wire % 8;
        match PayloadEnd(data, next, wireType)
        case Err(e) => Err(e)
        case Ok(end) =>
          if wireType == 4 && depth == 0 then Err(UnexpectedEndOfGroup)
          else
            var d := if wireType == 3 then depth + 1 else if wireType == 4 then depth - 1 else depth;
            if end >= TWO63 then Err(InvalidLength)
            else if d == 0 then Ok(end)
            else SkipFrom(data, end, d)
  }

  /** skipGenesis: `n` is the falling-through 64-bit index of the Go loop. */
  method Skip(data: Bytes) returns (r: Result<nat, WireError>)
    requires |data| < TWO63
    ensures r == SkipFrom(data, 0, 0)
  {
    hide ReadVarint, Int64;
    var i: int, depth: nat := 0, 0;
    while i < |data|
      invariant 0 <= i
      invariant SkipFrom(data, 0, 0) == SkipFrom(data, i, depth)
      decreases |data| - i
    {
      var tag := ScanVarint(data, i);
      if tag.Err? {
        return Err(tag.error);
      }
      ghost var start := i;
      i := tag.value.next;
      var wireType := tag.value.value % 8;
      if wireType == 0 {
        var number := ScanVarint(data, i);
        if number.Err? {
          return Err(number.error);
        }
        i := number.value.next;
      } else if wireType == 1 {
        i := Int64(i + 8);
      } else if wireType == 2 {
        var length := ScanVarint(data, i);
        if length.Err? {
          return Err(length.error);
        }
        if Int64(length.value.value) < 0 {
          return Err(InvalidLength);
        }
        i := Int64(length.value.next + Int64(length.value.value));
      } else if wireType == 3 {
        depth := depth + 1;
      } else if wireType == 4 {
        if depth == 0 {
          return Err(UnexpectedEndOfGroup);
        }
        depth := depth - 1;
      } else if wireType == 5 {
        i := Int64(i + 4);
      } else {
        return Err(IllegalWireType);
      }
      if i < 0 {
        return Err(InvalidLength);
      }
      if depth == 0 {
        return Ok(i);
      }
    }
    r := Err(UnexpectedEOF);
  }

  // ----- the depth counter is recursive descent -----------------------------------------

  /** One record by recursive descent: where it ends, if it is one. */
  function RecordEnd(data: Bytes, i: nat): (r: Option<nat>)
    ensures r.Some? ==> r.value > i
    decreases |data| - i, 0
  {
    if i >= |data| then None
    else
      match ReadVarint(data, i)
      case Err(_) => None
      case Ok(Read(wire, next)) =>
        if wire % 8 == 4 then None
        else if wire % 8 == 3 then GroupEnd(data, next)
        else
          match PayloadEnd(data, next, wire % 8)
          case Err(_) => None
          case Ok(end) => if end < TWO63 then Some(end) else None
  }

  /** The records of a group's body and its end tag. */
  function GroupEnd(data: Bytes, i: nat): (r: Option<nat>)
    ensures r.Some? ==> i < r.value <= |data|
    decreases |data| - i, 1
  {
    if i >= |data| then None
    else
      match ReadVarint(data, i)
      case Err(_) => None
      case Ok(Read(wire, next)) =>
        if wire % 8 == 4 then Some(next)
        else
          match RecordEnd(data, i)
          case None => None
          case Some(j) => GroupEnd(data, j)
  }

  /** Success with the end of the record, or any error. */
  predicate Finds(r: Result<nat, WireError>, end: Option<nat>) {
    if end.Some? then r == Ok(end.value) else r.Err?
  }

  /** What is left to skip once the innermost open group is closed at `end`. */
  function Closed(data: Bytes, end: nat, depth: nat): Result<nat, WireError>
    requires depth > 0
  {
    if depth == 1 then Ok(end) else SkipFrom(data, end, depth - 1)
  }

  /** Inside a group, the counter runs to where recursive descent finds the end of the group. */
  lemma {:induction false} CounterClosesGroup(data: Bytes, i: nat, depth: nat)
    requires |data| < TWO63 && depth > 0
    ensures match GroupEnd(data, i)
            case None => SkipFrom(data, i, depth).Err?
            case Some(end) => SkipFrom(data, i, depth) == Closed(data, end, depth)
    decreases |data| - i, 1
  {
    hide ReadVarint;
    if i < |data| && ReadVarint(data, i).Ok? && ReadVarint(data, i).value.value % 8 != 4 {
      CounterSkipsRecord(data, i, depth);
      if RecordEnd(data, i).Some? {
        CounterClosesGroup(data, RecordEnd(data, i).value, depth);
      }
      hide SkipFrom, RecordEnd;
    }
  }

  /** Inside a group, the counter passes over one record as recursive descent does. */
  lemma {:induction false} CounterSkipsRecord(data: Bytes, i: nat, depth: nat)
    requires |data| < TWO63 && depth > 0
    requires i < |data| && ReadVarint(data, i).Ok? && ReadVarint(data, i).value.value % 8 != 4
    ensures match RecordEnd(data, i)
            case None => SkipFrom(data, i, depth).Err?
            case Some(end) => SkipFrom(data, i, depth) == SkipFrom(data, end, depth)
    decreases |data| - i, 0
  {
    hide ReadVarint;
    var Read(wire, next) := ReadVarint(data, i).value;
    if wire % 8 == 3 {
      assert SkipFrom(data, i, depth) == SkipFrom(data, next, depth + 1);
      CounterClosesGroup(data, next, depth + 1);
      hide SkipFrom, GroupEnd;
    }
    hide PayloadEnd, GroupEnd;
  }

  /**
   * On any bytes at all, the single loop with a depth counter accepts exactly what recursive
   * descent over nested groups accepts, and stops at the same place.
   */
  lemma CounterIsRecursiveDescent(data: Bytes, i: nat)
    requires |data| < TWO63
    ensures Finds(SkipFrom(data, i, 0), RecordEnd(data, i))
  {
    hide ReadVarint;
    if i < |data| && ReadVarint(data, i).Ok? && ReadVarint(data, i).value.value % 8 == 3 {
      var next := ReadVarint(data, i).value.next;
      assert SkipFrom(data, i, 0) == SkipFrom(data, next, 1);
      CounterClosesGroup(data, next, 1);
      hide SkipFrom, GroupEnd;
    }
    hide GroupEnd;
  }

  // ----- well-formed records of any wire type -------------------------------

  /** A record of the Protocol Buffers wire format, groups included. */
  datatype Rec =
    | VarintRec(num: nat, v: nat)
    | Fixed64Rec(num: nat, eight: Bytes)
    | LenRec(num: nat, payload: Bytes)
    | GroupRec(num: nat, body: Recs)
    | Fixed32Rec(num: nat, four: Bytes)

  datatype Recs = NoRecs | Recs(head: Rec, tail: Recs)

  /** Field numbers fit the tag's 61 bits; payloads have the size their wire type says. */
  predicate WfRec(r: Rec) {
    r.num < 0x2000_0000_0000_0000 &&
    match r
    case VarintRec(_, v) => v < TWO64
    case Fixed64Rec(_, p) => |p| == 8
    case LenRec(_, p) => |p| < TWO63
    case GroupRec(_, body) => WfRecs(body)
    case Fixed32Rec(_, p) => |p| == 4
  }

  predicate WfRecs(rs: Recs) {
    match rs
    case NoRecs => true
    case Recs(r, rest) => WfRec(r) && WfRecs(rest)
  }

  function Tag(num: nat, wireType: nat): Bytes {
    Encode(8 * num + wireType)
  }

  /** The three tags the encoders write. */
  lemma TagBytes()
    ensures Tag(1, 2) == [0x0A] && Tag(2, 2) == [0x12] && Tag(2, 0) == [0x10]
  {
  }

  function EncRec(r: Rec): (s: Bytes)
    ensures |s| >= 1
  {
    match r
    case VarintRec(n, v) => Tag(n, 0) + Encode(v)
    case Fixed64Rec(n, p) => Tag(n, 1) + p
    case LenRec(n, p) => Tag(n, 2) + (Encode(|p|) + p)
    case GroupRec(n, body) => Tag(n, 3) + (EncRecs(body) + Tag(n, 4))
    case Fixed32Rec(n, p) => Tag(n, 5) + p
  }

  function EncRecs(rs: Recs): Bytes {
    match rs
    case NoRecs => []
    case Recs(r, rest) => EncRec(r) + EncRecs(rest)
  }

  /** A group opened as field `n` and closed as field `m`. */
  function GroupBytes(n: nat, m: nat, body: Recs): Bytes {
    Tag(n, 3) + (EncRecs(body) + Tag(m, 4))
  }

  lemma ReadTag(data: Bytes, i: nat, num: nat, wireType: nat)
    requires num < 0x2000_0000_0000_0000 && wireType < 8
    requires Has(data, i, Tag(num, wireType))
    ensures ReadVarint(data, i) == Ok(Read(8 * num + wireType, i + |Tag(num, wireType)|))
  {
    VarintRoundTrip(data, i, 8 * num + wireType);
  }

  /** One turn of the skipper's loop: a tag `r` and a payload that ends at `end`. */
  lemma SkipTurn(data: Bytes, i: nat, depth: nat, r: Read, wireType: nat, end: nat)
    requires i < |data| && r.next <= |data| && end < TWO63
    requires ReadVarint(data, i) == Ok(r)
    requires wireType == r.value % 8 && !(wireType == 4 && depth == 0)
    requires PayloadEnd(data, r.next, wireType) == Ok(end)
    ensures var d := if wireType == 3 then depth + 1 else if wireType == 4 then depth - 1 else depth;
            SkipFrom(data, i, depth) == if d == 0 then Ok(end) else SkipFrom(data, end, d)
  {
    hide ReadVarint, PayloadEnd;
  }

  /** One turn of the skipper's loop on a record that is not a group tag. */
  lemma SkipFlat(data: Bytes, i: nat, depth: nat, n: nat, wireType: nat, payload: Bytes)
    requires n < 0x2000_0000_0000_0000 && |data| < TWO63
    requires wireType in {0, 1, 2, 5}
    requires Has(data, i, Tag(n, wireType) + payload)
    requires i + |Tag(n, wireType)| <= |data|
    requires PayloadEnd(data, i + |Tag(n, wireType)|, wireType) ==
             Ok(i + |Tag(n, wireType) + payload|)
    ensures var end := i + |Tag(n, wireType) + payload|;
            SkipFrom(data, i, depth) == if depth == 0 then Ok(end) else SkipFrom(data, end, depth)
  {
    hide ReadVarint, Encode, Tag, PayloadEnd, SkipFrom;
    HasSplit(data, i, Tag(n, wireType), payload);
    ReadTag(data, i, n, wireType);
    SkipTurn(data, i, depth, Read(8 * n + wireType, i + |Tag(n, wireType)|), wireType,
             i + |Tag(n, wireType) + payload|);
  }

  /**
   * The skipper consumes exactly one well-formed record: outside groups it stops right behind
   * it, inside groups it carries on behind it at the same depth.
   */
  lemma {:induction false} SkipRec(data: Bytes, i: nat, depth: nat, r: Rec)
    requires WfRec(r)
    requires |data| < TWO63
    requires Has(data, i, EncRec(r))
    ensures SkipFrom(data, i, depth) ==
            if depth == 0 then Ok(i + |EncRec(r)|) else SkipFrom(data, i + |EncRec(r)|, depth)
    decreases r
  {
    hide SkipFrom, ReadVarint, Encode, Tag, Has;
    match r
    case VarintRec(n, v) =>
      HasSplit(data, i, Tag(n, 0), Encode(v));
      HasInside(data, i, Tag(n, 0));
      VarintRoundTrip(data, i + |Tag(n, 0)|, v);
      SkipFlat(data, i, depth, n, 0, Encode(v));
    case Fixed64Rec(n, p) =>
      HasSplit(data, i, Tag(n, 1), p);
      HasInside(data, i, Tag(n, 1));
      SkipFlat(data, i, depth, n, 1, p);
    case LenRec(n, p) =>
      HasSplit(data, i, Tag(n, 2), Encode(|p|) + p);
      HasInside(data, i, Tag(n, 2));
      HasSplit(data, i + |Tag(n, 2)|, Encode(|p|), p);
      VarintRoundTrip(data, i + |Tag(n, 2)|, |p|);
      SkipFlat(data, i, depth, n, 2, Encode(|p|) + p);
    case GroupRec(n, body) =>
      SkipGroup(data, i, depth, n, n, body);
    case Fixed32Rec(n, p) =>
      HasSplit(data, i, Tag(n, 5), p);
      HasInside(data, i, Tag(n, 5));
      SkipFlat(data, i, depth, n, 5, p);
  }

  /** One turn of the skipper's loop on a group tag. */
  lemma SkipGroupTag(data: Bytes, i: nat, depth: nat, n: nat, wireType: nat)
    requires n < 0x2000_0000_0000_0000 && |data| < TWO63
    requires wireType == 3 || (wireType == 4 && depth > 0)
    requires Has(data, i, Tag(n, wireType))
    ensures var next := i + |Tag(n, wireType)|;
            SkipFrom(data, i, depth) ==
            if wireType == 3 then SkipFrom(data, next, depth + 1)
            else if depth == 1 then Ok(next)
            else SkipFrom(data, next, depth - 1)
  {
    hide ReadVarint, Encode, Tag, SkipFrom;
    ReadTag(data, i, n, wireType);
    var next := i + |Tag(n, wireType)|;
    SkipTurn(data, i, depth, Read(8 * n + wireType, next), wireType, next);
  }

  /** A group opened under one number, closed under any: the skipper does not compare the two. */
  lemma {:induction false} SkipGroup(data: Bytes, i: nat, depth: nat, n: nat, m: nat, body: Recs)
    requires n < 0x2000_0000_0000_0000 && m < 0x2000_0000_0000_0000 && WfRecs(body)
    requires |data| < TWO63
    requires Has(data, i, GroupBytes(n, m, body))
    ensures var end := i + |GroupBytes(n, m, body)|;
            SkipFrom(data, i, depth) == if depth == 0 then Ok(end) else SkipFrom(data, end, depth)
    decreases body, 1
  {
    hide SkipFrom, Tag, Has;
    var inner := i + |Tag(n, 3)|;
    var close := inner + |EncRecs(body)|;
    HasSplit(data, i, Tag(n, 3), EncRecs(body) + Tag(m, 4));
    HasSplit(data, inner, EncRecs(body), Tag(m, 4));
    SkipGroupTag(data, i, depth, n, 3);
    SkipRecs(data, inner, depth + 1, body);
    SkipGroupTag(data, close, depth + 1, m, 4);
  }

  lemma {:induction false} SkipRecs(data: Bytes, i: nat, depth: nat, rs: Recs)
    requires WfRecs(rs)
    requires |data| < TWO63
    requires depth > 0
    requires Has(data, i, EncRecs(rs))
    ensures SkipFrom(data, i, depth) == SkipFrom(data, i + |EncRecs(rs)|, depth)
    decreases rs, 0
  {
    hide SkipFrom, EncRec, Has;
    match rs
    case NoRecs =>
    case Recs(r, rest) =>
      HasSplit(data, i, EncRec(r), EncRecs(rest));
      SkipRec(data, i, depth, r);
      SkipRecs(data, i + |EncRec(r)|, depth, rest);
  }

  /**
   * What the skipper refuses: wire types that do not exist, an end tag outside any group, and a
   * length that is no int64.
   */
  lemma SkipRefuses(data: Bytes, i: nat, depth: nat, n: nat, t: nat)
    requires n < 0x2000_0000_0000_0000 && |data| < TWO63
    requires t < 8 && Has(data, i, Tag(n, t))
    ensures t == 6 || t == 7 ==> SkipFrom(data, i, depth) == Err(IllegalWireType)
    ensures t == 4 && depth == 0 ==> SkipFrom(data, i, depth) == Err(UnexpectedEndOfGroup)
    ensures var length := ReadVarint(data, i + |Tag(n, t)|);
            t == 2 && length.Ok? && length.value.value >= TWO63 ==> SkipFrom(data, i, depth) == Err(InvalidLength)
  {
    hide ReadVarint, Encode;
    ReadTag(data, i, n, t);
    HasInside(data, i, Tag(n, t));
    hide Tag;
  }

  // ----- end tags of other fields ---------------------------------------------

  /** The wire type in a record's tag. */
  function WireType(r: Rec): nat {
    match r
    case VarintRec(_, _) => 0
    case Fixed64Rec(_, _) => 1
    case LenRec(_, _) => 2
    case GroupRec(_, _) => 3
    case Fixed32Rec(_, _) => 5
  }

  lemma StartsWithTag(data: Bytes, i: nat, r: Rec)
    requires WfRec(r) && |data| < TWO63 && Has(data, i, EncRec(r))
    ensures ReadVarint(data, i) == Ok(Read(8 * r.num + WireType(r), i + |Tag(r.num, WireType(r))|))
  {
    hide ReadVarint, Tag, Has;
    HasSplit(data, i, Tag(r.num, WireType(r)),
             match r
             case VarintRec(_, v) => Encode(v)
             case Fixed64Rec(_, p) => p
             case LenRec(_, p) => Encode(|p|) + p
             case GroupRec(n, body) => EncRecs(body) + Tag(n, 4)
             case Fixed32Rec(_, p) => p);
    ReadTag(data, i, r.num, WireType(r));
  }

  /** No record starts with an end tag. */
  lemma RecordsStartOtherwise(data: Bytes, i: nat, r: Rec, n: nat)
    requires WfRec(r) && n < 0x2000_0000_0000_0000 && |data| < TWO63
    ensures !(Has(data, i, EncRec(r)) && Has(data, i, Tag(n, 4)))
  {
    hide ReadVarint, EncRec, Tag, Has;
    if Has(data, i, EncRec(r)) && Has(data, i, Tag(n, 4)) {
      StartsWithTag(data, i, r);
      ReadTag(data, i, n, 4);
    }
  }

  /** Where the records of a group end, and under which number, can be read in one way only. */
  lemma {:induction false} EndTagIsUnique(data: Bytes, i: nat, a: Recs, m: nat, b: Recs, n: nat)
    requires WfRecs(a) && WfRecs(b) && m < 0x2000_0000_0000_0000 && n < 0x2000_0000_0000_0000
    requires |data| < TWO63
    requires Has(data, i, EncRecs(a) + Tag(m, 4)) && Has(data, i, EncRecs(b) + Tag(n, 4))
    ensures m == n
    decreases a
  {
    hide SkipFrom, ReadVarint, EncRec, Tag, Has;
    HasSplit(data, i, EncRecs(a), Tag(m, 4));
    HasSplit(data, i, EncRecs(b), Tag(n, 4));
    match (a, b)
    case (NoRecs, NoRecs) =>
      ReadTag(data, i, m, 4);
      ReadTag(data, i, n, 4);
    case (NoRecs, Recs(s, _)) =>
      HasSplit(data, i, EncRec(s), EncRecs(b.tail));
      RecordsStartOtherwise(data, i, s, m);
    case (Recs(r, _), NoRecs) =>
      HasSplit(data, i, EncRec(r), EncRecs(a.tail));
      RecordsStartOtherwise(data, i, r, n);
    case (Recs(r, rest), Recs(s, others)) =>
      assert EncRecs(a) + Tag(m, 4) == EncRec(r) + (EncRecs(rest) + Tag(m, 4));
      assert EncRecs(b) + Tag(n, 4) == EncRec(s) + (EncRecs(others) + Tag(n, 4));
      HasSplit(data, i, EncRec(r), EncRecs(rest) + Tag(m, 4));
      HasSplit(data, i, EncRec(s), EncRecs(others) + Tag(n, 4));
      SkipRec(data, i, 0, r);
      SkipRec(data, i, 0, s);
      EndTagIsUnique(data, i + |EncRec(r)|, rest, m, others, n);
  }

  lemma GroupBytesAreAGroup(n: nat, m: nat, body: Recs, r: Rec)
    requires n < 0x2000_0000_0000_0000 && WfRec(r)
    requires EncRec(r) == GroupBytes(n, m, body) && |EncRec(r)| < TWO63
    ensures r.GroupRec? && r.num == n
    ensures Has(EncRec(r), |Tag(n, 3)|, EncRecs(body) + Tag(m, 4))
    ensures Has(EncRec(r), |Tag(n, 3)|, EncRecs(r.body) + Tag(n, 4))
  {
    var data := EncRec(r);
    assert data[0..|data|] == data;
    hide ReadVarint, Tag;
    assert Has(data, 0, EncRec(r)) && Has(data, 0, GroupBytes(n, m, body));
    hide Has;
    StartsWithTag(data, 0, r);
    HasSplit(data, 0, Tag(n, 3), EncRecs(body) + Tag(m, 4));
    ReadTag(data, 0, n, 3);
    HasSplit(data, 0, Tag(n, 3), EncRecs(r.body) + Tag(n, 4));
  }

  /**
   * The skipper takes a group for one record whatever field number its end tag carries, but the
   * bytes are a record of the wire format if and only if it is the number of the start tag.
   */
  lemma AnyEndTagClosesAGroup(n: nat, m: nat, body: Recs)
    requires n < 0x2000_0000_0000_0000 && m < 0x2000_0000_0000_0000 && WfRecs(body)
    requires |GroupBytes(n, m, body)| < TWO63
    ensures SkipFrom(GroupBytes(n, m, body), 0, 0) == Ok(|GroupBytes(n, m, body)|)
    ensures (exists r :: WfRec(r) && EncRec(r) == GroupBytes(n, m, body)) <==> n == m
  {
    hide SkipFrom, Tag;
    var data := GroupBytes(n, m, body);
    assert data[0..|data|] == data;
    SkipGroup(data, 0, 0, n, m, body);
    assert EncRec(GroupRec(n, body)) == GroupBytes(n, n, body);
    assert WfRec(GroupRec(n, body));
    forall r | WfRec(r) && EncRec(r) == data ensures n == m {
      GroupBytesAreAGroup(n, m, body, r);
      EndTagIsUnique(data, |Tag(n, 3)|, body, m, r.body, n);
    }
  }

  lemma PayloadLocal(pre: Bytes, post: Bytes, i: nat, wireType: nat)
    requires i <= |pre| && PayloadEnd(pre, i, wireType).Ok?
    ensures PayloadEnd(pre + post, i, wireType) == PayloadEnd(pre, i, wireType)
  {
    if wireType == 0 || wireType == 2 {
      GroupsLocal(pre, post, i, 0);
    }
    hide ReadGroups;
  }

  /** A successful skip that ends inside the data does not depend on what follows. */
  lemma {:induction false} SkipLocal(pre: Bytes, post: Bytes, i: nat, depth: nat)
    requires SkipFrom(pre, i, depth).Ok?
    ensures SkipFrom(pre + post, i, depth) == SkipFrom(pre, i, depth)
    decreases |pre| - i
  {
    GroupsLocal(pre, post, i, 0);
    var Read(wire, next) := ReadVarint(pre, i).value;
    PayloadLocal(pre, post, next, wire % 8);
    hide ReadGroups, PayloadEnd;
    var end := PayloadEnd(pre, next, wire % 8).value;
    var d := if wire % 8 == 3 then depth + 1 else if wire % 8 == 4 then depth - 1 else depth;
    if d != 0 {
      SkipLocal(pre, post, end, d);
    }
  }

  // ----- fields of a message --------------------------------------------------

  /** How a message declares a field number: a length-delimited field, a uint64, or not at all. */
  datatype Kind = Lengthy | Number | Unknown

  /** The kinds of field numbers 1 and 2; no message of the token factory genesis declares others. */
  datatype Schema = Schema(one: Kind, two: Kind) {
    function KindOf(num: int): Kind {
      if num == 1 then one else if num == 2 then two else Unknown
    }
  }

  /** One record as the decoder uses it; `Skipped` is a record it passes over. */
  datatype Field =
    | Blob(num: nat, payload: Bytes)
    | Num(num: nat, v: nat)
    | Skipped

  datatype Item = Item(field: Field, next: nat)

  /** A length prefix at `i` and the bytes behind it. */
  function ReadBlob(data: Bytes, i: nat, num: nat): (r: Result<Item, WireError>)
    requires i <= |data|
    ensures r.Ok? ==> i < r.value.next <= |data|
  {
    match ReadVarint(data, i)
    case Err(e) => Err(e)
    case Ok(Read(len, start)) =>
      if len >= TWO63 || start + len >= TWO63 then Err(InvalidLength)
      else if start + len > |data| then Err(UnexpectedEOF)
      else Ok(Item(Blob(num, data[start..start + len]), start + len))
  }

  /** The unknown record at `i`, passed over. */
  function ReadUnknown(data: Bytes, i: nat): (r: Result<Item, WireError>)
    requires i < |data|
    ensures r.Ok? ==> i < r.value.next <= |data|
  {
    match SkipFrom(data[i..], 0, 0)
    case Err(e) => Err(e)
    case Ok(n) =>
      if i + n >= TWO63 then Err(InvalidLength)
      else if i + n > |data| then Err(UnexpectedEOF)
      else Ok(Item(Skipped, i + n))
  }

  /** One turn of an Unmarshal loop, up to what the message does with the field. */
  function ReadField(data: Bytes, i: nat, schema: Schema): (r: Result<Item, WireError>)
    requires i < |data|
    ensures r.Ok? ==> i < r.value.next <= |data|
  {
    match ReadVarint(data, i)
    case Err(e) => Err(e)
    case Ok(Read(wire, next)) =>
      var num, wireType := Int32(wire / 8), wire % 8;
      if wireType == 4 then Err(EndGroupOutsideGroup)
      else if num <= 0 then Err(IllegalTag)
      else
        match schema.KindOf(num)
        case Lengthy => if wireType != 2 then Err(WrongWireType) else ReadBlob(data, next, num)
        case Number =>
          if wireType != 0 then Err(WrongWireType)
          else (
            match ReadVarint(data, next)
            case Err(e) => Err(e)
            case Ok(Read(v, n)) => Ok(Item(Num(num, v), n)))
        case Unknown => ReadUnknown(data, i)
  }

  method ScanBlob(data: Bytes, i: nat, num: nat) returns (r: Result<Item, WireError>)
    requires i <= |data| < TWO63
    ensures r == ReadBlob(data, i, num)
  {
    var length := ScanVarint(data, i);
    if length.Err? {
      return Err(length.error);
    }
    var Read(raw, start) := length.value;
    var msglen := Int64(raw);
    if msglen < 0 {
      return Err(InvalidLength);
    }
    var postIndex := Int64(start + msglen);
    if postIndex < 0 {
      return Err(InvalidLength);
    }
    if postIndex > |data| {
      return Err(UnexpectedEOF);
    }
    r := Ok(Item(Blob(num, data[start..postIndex]), postIndex));
  }

  method ScanUnknown(data: Bytes, preIndex: nat) returns (r: Result<Item, WireError>)
    requires preIndex < |data| < TWO63
    ensures r == ReadUnknown(data, preIndex)
  {
    var skipped := Skip(data[preIndex..]);
    if skipped.Err? {
      return Err(skipped.error);
    }
    var skippy := skipped.value;
    if skippy < 0 || Int64(preIndex + skippy) < 0 {
      return Err(InvalidLength);
    }
    if preIndex + skippy > |data| {
      return Err(UnexpectedEOF);
    }
    r := Ok(Item(Skipped, preIndex + skippy));
  }

  /** The part of the Unmarshal loop body that the four messages share. */
  method ScanField(data: Bytes, i: nat, schema: Schema) returns (r: Result<Item, WireError>)
    requires i < |data| < TWO63
    ensures r == ReadField(data, i, schema)
  {
    var tag := ScanVarint(data, i);
    if tag.Err? {
      return Err(tag.error);
    }
    var fieldNum := Int32(tag.value.value / 8);
    var wireType := tag.value.value % 8;
    if wireType == 4 {
      return Err(EndGroupOutsideGroup);
    }
    if fieldNum <= 0 {
      return Err(IllegalTag);
    }
    match schema.KindOf(fieldNum) {
      case Lengthy =>
        if wireType != 2 {
          return Err(WrongWireType);
        }
        r := ScanBlob(data, tag.value.next, fieldNum);
      case Number =>
        if wireType != 0 {
          return Err(WrongWireType);
        }
        var number := ScanVarint(data, tag.value.next);
        if number.Err? {
          return Err(number.error);
        }
        r := Ok(Item(Num(fieldNum, number.value.value), number.value.next));
      case Unknown =>
        r := ScanUnknown(data, i);
    }
  }

  // ----- the stream of fields ---------------------------------------------------

  datatype Stream = End | Fail(error: WireError) | More(field: Field, rest: Stream)

  /** The records from index `i` on, up to the first framing error. */
  function Fields(data: Bytes, i: nat, schema: Schema): Stream
    requires i <= |data|
    decreases |data| - i
  {
    if i == |data| then End
    else
      match ReadField(data, i, schema)
      case Err(e) => Fail(e)
      case Ok(Item(f, next)) => More(f, Fields(data, next, schema))
  }

  predicate Complete(s: Stream) {
    match s
    case End => true
    case Fail(_) => false
    case More(_, rest) => Complete(rest)
  }

  function Append(s: Stream, t: Stream): Stream {
    match s
    case End => t
    case Fail(e) => s
    case More(f, rest) => More(f, Append(rest, t))
  }

  /** Equal up to the kind of framing error at the end. */
  predicate Alike(s: Stream, t: Stream) {
    match s
    case End => t.End?
    case Fail(_) => t.Fail?
    case More(f, rest) => t.More? && f == t.field && Alike(rest, t.rest)
  }

  lemma {:induction s} AlikeRefl(s: Stream)
    ensures Alike(s, s)
  {
  }

  /** A field the encoder may write for a message of this schema. */
  predicate Fits(f: Field, schema: Schema) {
    match f
    case Blob(n, _) => (n == 1 || n == 2) && schema.KindOf(n) == Lengthy
    case Num(n, v) => (n == 1 || n == 2) && schema.KindOf(n) == Number && v < TWO64
    case Skipped => false
  }

  predicate AllFit(s: Stream, schema: Schema) {
    match s
    case End => true
    case Fail(_) => false
    case More(f, rest) => Fits(f, schema) && AllFit(rest, schema)
  }

  function EncField(f: Field): Bytes {
    match f
    case Blob(n, p) => Tag(n, 2) + (Encode(|p|) + p)
    case Num(n, v) => Tag(n, 0) + Encode(v)
    case Skipped => []
  }

  function EncStream(s: Stream): Bytes {
    match s
    case End => []
    case Fail(_) => []
    case More(f, rest) => EncField(f) + EncStream(rest)
  }

  lemma ReadEncodedField(data: Bytes, i: nat, schema: Schema, f: Field)
    requires Fits(f, schema)
    requires |data| < TWO63
    requires Has(data, i, EncField(f))
    ensures |EncField(f)| > 0
    ensures ReadField(data, i, schema) == Ok(Item(f, i + |EncField(f)|))
  {
    hide ReadVarint, Encode, SkipFrom, Tag;
    match f
    case Blob(n, p) =>
      HasSplit(data, i, Tag(n, 2), Encode(|p|) + p);
      var j := i + |Tag(n, 2)|;
      HasSplit(data, j, Encode(|p|), p);
      ReadTag(data, i, n, 2);
      VarintRoundTrip(data, j, |p|);
      assert ReadBlob(data, j, n) == Ok(Item(f, i + |EncField(f)|));
    case Num(n, v) =>
      HasSplit(data, i, Tag(n, 0), Encode(v));
      ReadTag(data, i, n, 0);
      VarintRoundTrip(data, i + |Tag(n, 0)|, v);
  }

  /**
   * Field numbers count modulo 2^32: a record whose number is 1 or 2 apart from multiples of 2^32
   * is read as field 1 or 2, one that leaves zero or the upper half is refused, and any other is
   * passed over as unknown.
   */
  lemma FieldNumbersWrap(data: Bytes, i: nat, schema: Schema, n: nat, t: nat)
    requires n < 0x2000_0000_0000_0000 && t < 8 && t != 4 && i < |data| < TWO63
    requires Has(data, i, Tag(n, t))
    ensures n % TWO32 == 0 || n % TWO32 >= TWO31 ==> ReadField(data, i, schema) == Err(IllegalTag)
    ensures 2 < n % TWO32 < TWO31 ==> ReadField(data, i, schema) == ReadUnknown(data, i)
    ensures n % TWO32 == 1 || n % TWO32 == 2 ==>
              var kind, next := schema.KindOf(n % TWO32), i + |Tag(n, t)|;
              && (kind == Lengthy && t == 2 ==> ReadField(data, i, schema) == ReadBlob(data, next, n % TWO32))
              && ((kind == Lengthy && t != 2) || (kind == Number && t != 0) ==>
                   ReadField(data, i, schema) == Err(WrongWireType))
  {
    hide ReadVarint, Encode;
    ReadTag(data, i, n, t);
    HasInside(data, i, Tag(n, t));
    Int32Is(n);
    hide Tag, Int32, SkipFrom;
  }

  lemma Int32Is(n: nat)
    ensures Int32(n) == if n % TWO32 < TWO31 then n % TWO32 else n % TWO32 - TWO32
  {
  }

  /** Reading back a whole encoded stream of fields gives the stream. */
  lemma {:induction false} StreamRoundTrip(data: Bytes, i: nat, schema: Schema, s: Stream)
    requires AllFit(s, schema)
    requires |data| < TWO63
    requires Has(data, i, EncStream(s)) && i + |EncStream(s)| == |data|
    ensures Fields(data, i, schema) == s
    decreases s
  {
    hide ReadField, EncField, Has;
    match s
    case End =>
    case More(f, rest) =>
      HasSplit(data, i, EncField(f), EncStream(rest));
      ReadEncodedField(data, i, schema, f);
      StreamRoundTrip(data, i + |EncField(f)|, schema, rest);
  }

  // ----- locality: what surrounds a record does not change how it is read ----------

  lemma ReadBlobLocal(pre: Bytes, post: Bytes, i: nat, num: nat)
    requires i <= |pre| && |pre + post| < TWO63
    requires ReadBlob(pre, i, num).Ok?
    ensures ReadBlob(pre + post, i, num) == ReadBlob(pre, i, num)
  {
    GroupsLocal(pre, post, i, 0);
    var Read(len, start) := ReadVarint(pre, i).value;
    hide ReadGroups;
    assert (pre + post)[start..start + len] == pre[start..start + len];
  }

  lemma ReadUnknownLocal(pre: Bytes, post: Bytes, i: nat)
    requires i < |pre| && |pre + post| < TWO63
    requires ReadUnknown(pre, i).Ok?
    ensures ReadUnknown(pre + post, i) == ReadUnknown(pre, i)
  {
    hide SkipFrom;
    assert (pre + post)[i..] == pre[i..] + post;
    SkipLocal(pre[i..], post, 0, 0);
  }

  lemma ReadFieldLocal(pre: Bytes, post: Bytes, i: nat, schema: Schema)
    requires i < |pre| && |pre + post| < TWO63
    requires ReadField(pre, i, schema).Ok?
    ensures ReadField(pre + post, i, schema) == ReadField(pre, i, schema)
  {
    GroupsLocal(pre, post, i, 0);
    hide ReadGroups, ReadBlob, ReadUnknown;
    var Read(wire, next) := ReadVarint(pre, i).value;
    match schema.KindOf(Int32(wire / 8))
    case Lengthy => ReadBlobLocal(pre, post, next, Int32(wire / 8));
    case Number => GroupsLocal(pre, post, next, 0);
    case Unknown => ReadUnknownLocal(pre, post, i);
  }

  lemma VarintShift(pre: Bytes, post: Bytes, j: nat)
    ensures ReadVarint(pre + post, |pre| + j) ==
            match ReadVarint(post, j)
            case Err(e) => Err(e)
            case Ok(Read(v, n)) => Ok(Read(v, |pre| + n))
  {
    GroupsShift(pre, post, j, 0);
  }

  lemma ReadBlobShift(pre: Bytes, post: Bytes, j: nat, num: nat)
    requires j <= |post| && |pre + post| < TWO63
    ensures var moved := ReadBlob(pre + post, |pre| + j, num);
            match ReadBlob(post, j, num)
            case Err(_) => moved.Err?
            case Ok(Item(f, n)) => moved == Ok(Item(f, |pre| + n))
  {
    hide ReadVarint;
    VarintShift(pre, post, j);
    if ReadVarint(post, j).Ok? {
      var Read(len, start) := ReadVarint(post, j).value;
      if start + len <= |post| {
        assert (pre + post)[|pre| + start..|pre| + start + len] == post[start..start + len];
      }
    }
  }

  /** Reading behind `pre` is reading `post`, moved; only the kind of a length error may differ. */
  lemma ReadFieldShift(pre: Bytes, post: Bytes, j: nat, schema: Schema)
    requires j < |post| && |pre + post| < TWO63
    ensures var moved := ReadField(pre + post, |pre| + j, schema);
            match ReadField(post, j, schema)
            case Err(_) => moved.Err?
            case Ok(Item(f, n)) => moved == Ok(Item(f, |pre| + n))
  {
    hide ReadVarint, ReadBlob, SkipFrom, Int32;
    VarintShift(pre, post, j);
    if ReadVarint(post, j).Ok? {
      var Read(wire, next) := ReadVarint(post, j).value;
      VarintShift(pre, post, next);
      if 0 < Int32(wire / 8) {
        ReadBlobShift(pre, post, next, Int32(wire / 8));
      }
      assert (pre + post)[|pre| + j..] == post[j..];
    }
  }

  /** Complete records stay complete records when more bytes follow. */
  lemma {:induction false} FieldsSplit(pre: Bytes, post: Bytes, i: nat, schema: Schema)
    requires i <= |pre| && |pre + post| < TWO63
    requires Complete(Fields(pre, i, schema))
    ensures Fields(pre + post, i, schema) ==
            Append(Fields(pre, i, schema), Fields(pre + post, |pre|, schema))
    decreases |pre| - i
  {
    hide ReadField;
    if i < |pre| {
      ReadFieldLocal(pre, post, i, schema);
      FieldsSplit(pre, post, ReadField(pre, i, schema).value.next, schema);
    }
  }

  lemma {:induction false} FieldsShift(pre: Bytes, post: Bytes, j: nat, schema: Schema)
    requires j <= |post| && |pre + post| < TWO63
    ensures Alike(Fields(pre + post, |pre| + j, schema), Fields(post, j, schema))
    decreases |post| - j
  {
    hide ReadField;
    if j < |post| {
      ReadFieldShift(pre, post, j, schema);
      if ReadField(post, j, schema).Ok? {
        FieldsShift(pre, post, ReadField(post, j, schema).value.next, schema);
      }
    }
  }

  /** A record whose field number the message does not declare. */
  predicate Undeclared(r: Rec, schema: Schema) {
    WfRec(r) && 0 < r.num < TWO31 && schema.KindOf(r.num) == Unknown
  }

  lemma ReadUndeclared(data: Bytes, i: nat, schema: Schema, r: Rec)
    requires Undeclared(r, schema)
    requires |data| < TWO63
    requires Has(data, i, EncRec(r))
    ensures ReadField(data, i, schema) == Ok(Item(Skipped, i + |EncRec(r)|))
  {
    hide SkipFrom, ReadVarint, Encode, WfRec;
    var wireType := match r
      case VarintRec(_, _) => 0
      case Fixed64Rec(_, _) => 1
      case LenRec(_, _) => 2
      case GroupRec(_, _) => 3
      case Fixed32Rec(_, _) => 5;
    var payload := EncRec(r)[|Tag(r.num, wireType)|..];
    assert EncRec(r) == Tag(r.num, wireType) + payload;
    HasSplit(data, i, Tag(r.num, wireType), payload);
    ReadTag(data, i, r.num, wireType);
    assert (8 * r.num + wireType) / 8 == r.num;
    HasInSuffix(data, i, EncRec(r));
    SkipRec(data[i..], 0, 0, r);
  }

  lemma {:induction s} AppendAlike(s: Stream, t: Stream, u: Stream)
    requires Alike(t, u)
    ensures Alike(Append(s, t), Append(s, u))
  {
    AlikeRefl(s);
  }

  /**
   * An undeclared record between complete records shows up as one `Skipped` and changes
   * nothing else, whatever bytes follow.
   */
  lemma UndeclaredIsSkipped(pre: Bytes, r: Rec, post: Bytes, schema: Schema)
    requires Undeclared(r, schema)
    requires |pre + EncRec(r) + post| < TWO63
    requires Complete(Fields(pre, 0, schema))
    ensures Alike(Fields(pre + EncRec(r) + post, 0, schema),
                  Append(Fields(pre, 0, schema), More(Skipped, Fields(post, 0, schema))))
    ensures Alike(Fields(pre + post, 0, schema),
                  Append(Fields(pre, 0, schema), Fields(post, 0, schema)))
  {
    hide ReadField, EncRec, Alike, Complete, Append;
    var e := EncRec(r);
    var data := pre + e + post;
    var tail := Fields(data, |pre| + |e|, schema);
    assert data == pre + (e + post) && data == (pre + e) + post;
    FieldsSplit(pre, e + post, 0, schema);
    HasHere(pre, e, post);
    ReadUndeclared(data, |pre|, schema, r);
    assert Fields(data, |pre|, schema) == More(Skipped, tail);
    FieldsShift(pre + e, post, 0, schema);
    AppendAlike(Fields(pre, 0, schema), More(Skipped, tail), More(Skipped, Fields(post, 0, schema)));
    FieldsSplit(pre, post, 0, schema);
    FieldsShift(pre, post, 0, schema);
    AppendAlike(Fields(pre, 0, schema), Fields(pre + post, |pre|, schema), Fields(post, 0, schema));
  }
}
