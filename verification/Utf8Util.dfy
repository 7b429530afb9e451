/** The UTF-8 validator, its character counter, and what they accept. */
module Utf8Util {
  import opened Wrappers
  import opened Utf8Grammar

  /** `b & mask` for a mask that keeps the bits from `unit` upwards. */
  function HighBits(b: Byte, unit: nat): int
    requires unit > 0
  {
    b - b % unit
  }

  /** Number of bytes a lead byte announces, or `None` for a byte that cannot lead. */
  function LeadLength(ch: Byte): Option<nat> {
    if ch <= 0x7F then Some(1)
    else if ch <= 0xBF then None
    else if ch <= 0xDF then Some(2)
    else if ch <= 0xEF then Some(3)
    else Some(4)
  }

  /** The same by masking, as the original does it. */
  method Utf8Bytes(ch: Byte) returns (len: Option<nat>)
    ensures len == LeadLength(ch)
  {
    if HighBits(ch, 0x80) == 0 { return Some(1); }
    if HighBits(ch, 0x20) == 0xC0 { return Some(2); }
    var result := HighBits(ch, 0x10);
    if result == 0xE0 { return Some(3); }
    if result == 0xF0 { return Some(4); }
    return None;
  }

  // ----- Reference: split off one unit after the other

  /** The first unit of a string, when it starts with one. */
  function FirstUnit(s: seq<Byte>): (u: Option<seq<Byte>>)
    ensures u.Some? ==> IsUnit(u.value) && u.value <= s && 1 <= |u.value| <= |s|
  {
    if s == [] then None
    else
      var n := LeadLength(s[0]);
      if n.Some? && n.value <= |s| && IsUnit(s[..n.value]) then Some(s[..n.value]) else None
  }

  /** A unit announces its own length, so no unit is a proper prefix of another. */
  lemma FirstUnitIsUnique(u: seq<Byte>, rest: seq<Byte>)
    requires IsUnit(u)
    ensures FirstUnit(u + rest) == Some(u)
  {
    assert (u + rest)[..|u|] == u;
  }

  function Units(s: seq<Byte>): Option<seq<seq<Byte>>> {
    if s == [] then Some([])
    else
      var u := FirstUnit(s);
      if u.None? then None
      else
        var rest := Units(s[|u.value|..]);
        if rest.None? then None else Some([u.value] + rest.value)
  }

  lemma {:induction false} UnitsSplit(s: seq<Byte>)
    requires Units(s).Some?
    ensures Splits(s, Units(s).value)
  {
    if s != [] {
      var u := FirstUnit(s).value;
      UnitsSplit(s[|u|..]);
      assert s == u + s[|u|..];
    }
  }

  /** There is at most one way to split a string into units, and `Units` finds it. */
  lemma {:induction false} SplitIsUnique(s: seq<Byte>, units: seq<seq<Byte>>)
    requires Splits(s, units)
    ensures Units(s) == Some(units)
  {
    if units != [] {
      var u, rest := units[0], Flatten(units[1..]);
      FirstUnitIsUnique(u, rest);
      assert s[|u|..] == rest;
      SplitIsUnique(rest, units[1..]);
      assert units == [u] + units[1..];
      assert s != [] && FirstUnit(s) == Some(u);
    }
  }

  function Count(s: seq<Byte>): Option<nat> {
    var units := Units(s);
    if units.None? then None else Some(|units.value|)
  }

  /** What the validator knows after `idx` bytes and `chars` characters decides nothing yet. */
  ghost predicate Undecided(s: seq<Byte>, idx: nat, chars: nat)
    requires idx <= |s|
  {
    Count(s) == match Count(s[idx..]) case None => None case Some(n) => Some(chars + n)
  }

  lemma Advance(s: seq<Byte>, idx: nat, chars: nat, n: nat)
    requires idx + n <= |s| && n > 0 && Undecided(s, idx, chars)
    requires LeadLength(s[idx]) == Some(n) && IsUnit(s[idx..idx + n])
    ensures Undecided(s, idx + n, chars + 1)
  {
    assert s[idx..][..n] == s[idx..idx + n];
    assert s[idx..][n..] == s[idx + n..];
  }

  lemma Stuck(s: seq<Byte>, idx: nat, chars: nat)
    requires idx < |s| && Undecided(s, idx, chars)
    requires var n := LeadLength(s[idx]); n.Some? && idx + n.value <= |s| ==> !IsUnit(s[idx..idx + n.value])
    ensures Count(s) == None
  {
    var n := LeadLength(s[idx]);
    if n.Some? && idx + n.value <= |s| {
      assert s[idx..][..n.value] == s[idx..idx + n.value];
    }
  }

  /** `n` bytes from `start` on form a unit. */
  predicate UnitAt(s: seq<Byte>, start: nat, n: nat) {
    start + n <= |s| && IsUnit(s[start..start + n])
  }

  lemma ThreeAt(s: seq<Byte>, start: nat)
    ensures UnitAt(s, start, 3) <==>
      && start + 3 <= |s| && Tail(s[start + 2])
      && (|| (s[start] == 0xE0 && 0xA0 <= s[start + 1] <= 0xBF)
          || ((0xE1 <= s[start] <= 0xEC || 0xEE <= s[start] <= 0xEF) && Tail(s[start + 1]))
          || (s[start] == 0xED && 0x80 <= s[start + 1] <= 0x9F))
  {
    if start + 3 <= |s| {
      var u := s[start..start + 3];
      assert u[0] == s[start] && u[1] == s[start + 1] && u[2] == s[start + 2];
    }
  }

  lemma FourAt(s: seq<Byte>, start: nat)
    ensures UnitAt(s, start, 4) <==>
      && start + 4 <= |s| && Tail(s[start + 2]) && Tail(s[start + 3])
      && (|| (s[start] == 0xF0 && 0x90 <= s[start + 1] <= 0xBF)
          || (0xF1 <= s[start] <= 0xF3 && Tail(s[start + 1]))
          || (s[start] == 0xF4 && 0x80 <= s[start + 1] <= 0x8F))
  {
    if start + 4 <= |s| {
      var u := s[start..start + 4];
      assert u[0] == s[start] && u[1] == s[start + 1] && u[2] == s[start + 2] && u[3] == s[start + 3];
    }
  }

  /** Bytes 2 and 3 of a three-byte character; `idx` ends on the last byte. */
  method ValidateThree(s: seq<Byte>, start: nat) returns (ok: bool, idx: nat)
    requires start < |s| && LeadLength(s[start]) == Some(3)
    ensures ok <==> UnitAt(s, start, 3)
    ensures ok ==> idx == start + 2
  {
    ThreeAt(s, start);
    idx := start;
    var ch1 := s[idx];
    if ch1 == 0xE0 {
      idx := idx + 1;
      if idx >= |s| || s[idx] < 0xA0 || s[idx] > 0xBF { return false, idx; }
    } else if ch1 == 0xED {
      idx := idx + 1;
      if idx >= |s| || s[idx] < 0x80 || s[idx] > 0x9F { return false, idx; }
    } else if (ch1 >= 0xE1 && ch1 <= 0xEC) || (ch1 >= 0xEE && ch1 <= 0xEF) {
      idx := idx + 1;
      if idx >= |s| || s[idx] < 0x80 || s[idx] > 0xBF { return false, idx; }
    } else {
      assert false;
    }
    idx := idx + 1;
    if idx >= |s| || s[idx] < 0x80 || s[idx] > 0xBF { return false, idx; }
    return true, idx;
  }

  /** Bytes 2 to 4 of a four-byte character; `idx` ends on the last byte. */
  method ValidateFour(s: seq<Byte>, start: nat) returns (ok: bool, idx: nat)
    requires start < |s| && LeadLength(s[start]) == Some(4)
    ensures ok <==> UnitAt(s, start, 4)
    ensures ok ==> idx == start + 3
  {
    FourAt(s, start);
    idx := start;
    var ch1 := s[idx];
    if ch1 == 0xF0 {
      idx := idx + 1;
      if idx >= |s| || s[idx] < 0x90 || s[idx] > 0xBF { return false, idx; }
    } else if ch1 == 0xF4 {
      idx := idx + 1;
      if idx >= |s| || s[idx] < 0x80 || s[idx] > 0x8F { return false, idx; }
    } else if ch1 >= 0xF1 && ch1 <= 0xF3 {
      idx := idx + 1;
      if idx >= |s| || s[idx] < 0x80 || s[idx] > 0xBF { return false, idx; }
    } else {
      return false, idx;
    }
    var stop := idx + 2;
    while idx < stop
      invariant start < idx <= stop && idx < |s|
      invariant forall i :: start + 1 < i <= idx ==> Tail(s[i])
    {
      idx := idx + 1;
      if idx >= |s| || s[idx] < 0x80 || s[idx] > 0xBF { return false, idx; }
    }
    return true, idx;
  }

  /** The validator: the number of characters, or `None` when the bytes are rejected. */
  method Utf8Validate(s: seq<Byte>) returns (utf8Chars: Option<nat>)
    ensures utf8Chars == Count(s)
  {
    var utf8Len := 0;
    var idx := 0;
    assert s[0..] == s;
    while idx < |s|
      invariant idx <= |s| && Undecided(s, idx, utf8Len)
    {
      ghost var start := idx;
      var bytes := Utf8Bytes(s[idx]);
      var valid := false;
      if bytes.Some? {
        match bytes.value {
          case 1 =>
            valid := true;
          case 2 =>
            idx := idx + 1;
            valid := !(idx >= |s| || s[idx] < 0x80 || s[idx] > 0xBF);
          case 3 =>
            valid, idx := ValidateThree(s, idx);
          case 4 =>
            valid, idx := ValidateFour(s, idx);
          case _ =>
        }
      }
      if !valid {
        Stuck(s, start, utf8Len);
        return None;
      }
      idx := idx + 1;
      Advance(s, start, utf8Len, idx - start);
      utf8Len := utf8Len + 1;
    }
    if idx != |s| {
      return None;
    }
    return Some(utf8Len);
  }

  /** The counter has read `pos` bytes and `result` characters. */
  ghost predicate LeadUndecided(s: seq<Byte>, pos: nat, result: nat)
    requires pos <= |s|
  {
    LeadCount(s) == match LeadCount(s[pos..]) case None => None case Some(n) => Some(result + n)
  }

  lemma LeadAdvance(s: seq<Byte>, pos: nat, result: nat)
    requires pos < |s| && LeadUndecided(s, pos, result)
    ensures match LeadLength(s[pos])
      case None => LeadCount(s) == None
      case Some(n) => if pos + n <= |s| then LeadUndecided(s, pos + n, result + 1) else LeadCount(s) == None
  {
    hide LeadLength;
    var n := LeadLength(s[pos]);
    if n.Some? && pos + n.value <= |s| {
      assert s[pos..][n.value..] == s[pos + n.value..];
    }
  }

  /** Characters counted by lead bytes alone. */
  method Utf8Len(s: seq<Byte>) returns (len: Option<nat>)
    ensures len == LeadCount(s)
  {
    var result := 0;
    var pos, bytes := 0, |s|;
    assert s[0..] == s;
    while bytes > 0
      invariant 0 <= pos && 0 <= bytes && pos + bytes == |s| && LeadUndecided(s, pos, result)
    {
      LeadAdvance(s, pos, result);
      var charBytes := Utf8Bytes(s[pos]);
      if charBytes.None? || bytes < charBytes.value {
        return None;
      }
      bytes := bytes - charBytes.value;
      pos := pos + charBytes.value;
      result := result + 1;
    }
    return Some(result);
  }

  function LeadCount(s: seq<Byte>): Option<nat> {
    if s == [] then Some(0)
    else
      var n := LeadLength(s[0]);
      if n.None? || |s| < n.value then None
      else
        var rest := LeadCount(s[n.value..]);
        if rest.None? then None else Some(rest.value + 1)
  }

  /** Every piece is as long as its first byte announces. */
  ghost predicate CutByLeads(pieces: seq<seq<Byte>>) {
    forall i :: 0 <= i < |pieces| ==> pieces[i] != [] && LeadLength(pieces[i][0]) == Some(|pieces[i]|)
  }

  lemma {:induction false} LeadCountCuts(s: seq<Byte>) returns (pieces: seq<seq<Byte>>)
    requires LeadCount(s).Some?
    ensures CutByLeads(pieces) && Flatten(pieces) == s && LeadCount(s) == Some(|pieces|)
  {
    pieces := [];
    if s != [] {
      var n := LeadLength(s[0]).value;
      var rest := LeadCountCuts(s[n..]);
      pieces := [s[..n]] + rest;
      assert s == s[..n] + s[n..];
    }
  }

  lemma {:induction false} CutsGiveCount(pieces: seq<seq<Byte>>)
    requires CutByLeads(pieces)
    ensures LeadCount(Flatten(pieces)) == Some(|pieces|)
  {
    if pieces != [] {
      CutsGiveCount(pieces[1..]);
      var s, n := Flatten(pieces), |pieces[0]|;
      assert s[0] == pieces[0][0] && s[n..] == Flatten(pieces[1..]);
    }
  }

  /** The counter counts the pieces of any string that is cut into pieces by its lead bytes, and fails on the others. */
  lemma LeadCountMeansCut(s: seq<Byte>, n: nat)
    ensures LeadCount(s) == Some(n) <==> exists pieces :: CutByLeads(pieces) && Flatten(pieces) == s && |pieces| == n
  {
    if LeadCount(s) == Some(n) {
      var pieces := LeadCountCuts(s);
    }
    forall pieces | CutByLeads(pieces) && Flatten(pieces) == s
      ensures LeadCount(s) == Some(|pieces|)
    {
      CutsGiveCount(pieces);
    }
  }

  // ----- What the validator accepts

  /** Accepted with count `n` means: splits into `n` units, in exactly one way. */
  lemma AcceptedIffSplits(s: seq<Byte>)
    ensures Count(s).Some? <==> exists units :: Splits(s, units)
    ensures forall units :: Splits(s, units) ==> Count(s) == Some(|units|)
    ensures forall u1, u2 :: Splits(s, u1) && Splits(s, u2) ==> u1 == u2
  {
    if Count(s).Some? {
      UnitsSplit(s);
    }
    forall units | Splits(s, units)
      ensures Units(s) == Some(units)
    {
      SplitIsUnique(s, units);
    }
  }

  /** No byte of `s` is C0 or C1. */
  predicate NoOverlongLead(s: seq<Byte>) {
    forall i :: 0 <= i < |s| ==> s[i] != 0xC0 && s[i] != 0xC1
  }

  /**
    Where the validator is wider than the grammar of section 4: an accepted string is in the
    grammar exactly when no byte of it is C0 or C1, and every string of the grammar is accepted.
  */
  lemma RfcIffNoOverlongLead(s: seq<Byte>)
    ensures IsRfcString(s) <==> Count(s).Some? && NoOverlongLead(s)
  {
    if IsRfcString(s) {
      var units :| Flatten(units) == s && forall i :: 0 <= i < |units| ==> IsChar(units[i]);
      assert Splits(s, units);
      SplitIsUnique(s, units);
      CharsHaveNoOverlongLead(units);
    }
    if Count(s).Some? && NoOverlongLead(s) {
      UnitsSplit(s);
      UnitsAreChars(Units(s).value);
    }
  }

  lemma {:induction false} CharsHaveNoOverlongLead(units: seq<seq<Byte>>)
    requires forall i :: 0 <= i < |units| ==> IsChar(units[i])
    ensures NoOverlongLead(Flatten(units))
  {
    if units != [] {
      CharsHaveNoOverlongLead(units[1..]);
    }
  }

  lemma {:induction false} UnitsAreChars(units: seq<seq<Byte>>)
    requires NoOverlongLead(Flatten(units))
    requires forall i :: 0 <= i < |units| ==> IsUnit(units[i])
    ensures forall i :: 0 <= i < |units| ==> IsChar(units[i])
  {
    if units != [] {
      var s, rest := Flatten(units), Flatten(units[1..]);
      assert s == units[0] + rest;
      assert s[0] == units[0][0];
      assert forall i :: 0 <= i < |rest| ==> rest[i] == s[|units[0]| + i];
      UnitsAreChars(units[1..]);
    }
  }

  /** The validator does accept such a string: C0 80 is not in the grammar. */
  lemma OverlongPairIsAccepted()
    ensures Count([0xC0, 0x80]) == Some(1) && !IsRfcString([0xC0, 0x80])
  {
    var s: seq<Byte> := [0xC0, 0x80];
    assert Flatten([s]) == s + Flatten([]);
    assert Splits(s, [s]);
    SplitIsUnique(s, [s]);
    RfcIffNoOverlongLead(s);
    assert s[0] == 0xC0;
  }

  /** The counter that only reads lead bytes agrees on every accepted string. */
  lemma {:induction false} AcceptedHasLeadCount(s: seq<Byte>)
    requires Count(s).Some?
    ensures LeadCount(s) == Count(s)
  {
    if s != [] {
      AcceptedHasLeadCount(s[|FirstUnit(s).value|..]);
    }
  }

  // ----- Round trips

  /** Encoding any scalar values gives an accepted string with one character per value. */
  lemma {:induction false} EncodedIsAccepted(vs: seq<Scalar>)
    ensures Count(EncodeAll(vs)) == Some(|vs|) && IsRfcString(EncodeAll(vs))
    ensures DecodeAll(EncodeAll(vs)) == Some(vs)
  {
    var units := seq(|vs|, i requires 0 <= i < |vs| => Encode(vs[i]));
    forall i | 0 <= i < |vs|
      ensures IsChar(units[i]) && Decode(units[i]) == vs[i]
    {
      DecodeEncode(vs[i]);
    }
    FlattenEncoded(vs, units);
    assert Splits(EncodeAll(vs), units);
    SplitIsUnique(EncodeAll(vs), units);
    assert DecodeUnits(units) == vs;
  }

  lemma {:induction false} FlattenEncoded(vs: seq<Scalar>, units: seq<seq<Byte>>)
    requires |units| == |vs| && forall i :: 0 <= i < |vs| ==> units[i] == Encode(vs[i])
    ensures Flatten(units) == EncodeAll(vs)
  {
    if vs != [] {
      FlattenEncoded(vs[1..], units[1..]);
    }
  }

  function DecodeUnits(units: seq<seq<Byte>>): seq<Scalar>
    requires forall i :: 0 <= i < |units| ==> IsChar(units[i])
  {
    seq(|units|, i requires 0 <= i < |units| => Decode(units[i]))
  }

  /** The scalar values a string spells, when it is in the grammar. */
  function DecodeAll(s: seq<Byte>): Option<seq<Scalar>> {
    var units := Units(s);
    if units.Some? && (forall i :: 0 <= i < |units.value| ==> IsChar(units.value[i]))
    then Some(DecodeUnits(units.value)) else None
  }

  /**
    Any accepted string without C0 and C1 decodes to scalar values (no surrogate, none above
    10FFFF), one per counted character, that encode to the same bytes.
  */
  lemma AcceptedRoundTrip(s: seq<Byte>)
    requires Count(s).Some? && NoOverlongLead(s)
    ensures DecodeAll(s).Some? && |DecodeAll(s).value| == Count(s).value && EncodeAll(DecodeAll(s).value) == s
  {
    UnitsSplit(s);
    UnitsAreChars(Units(s).value);
    FlattenEncoded(DecodeAll(s).value, Units(s).value);
  }
}
