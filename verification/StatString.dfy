/** Stat strings: every byte made odd, seven at a time behind a mask byte that says which were odd already. */
module StatString {
  import opened Bytes
  import opened Digits

  const GROUP := 7

  // ---- encoding ----

  function Odd(b: Byte): Byte {
    if b % 2 == 0 then b + 1 else b
  }

  function Odds(group: seq<Byte>): (r: seq<Byte>)
    ensures |r| == |group|
  {
    seq(|group|, i requires 0 <= i < |group| => Odd(group[i]))
  }

  /** Bit 0 is always set; bit i + 1 is set when byte i is odd. */
  function Mask(group: seq<Byte>): nat {
    if group == [] then 1
    else Mask(group[..|group| - 1]) + group[|group| - 1] % 2 * Pow(2, |group|)
  }

  lemma {:induction false} MaskBound(group: seq<Byte>)
    ensures Mask(group) < Pow(2, |group| + 1)
  {
    if group != [] {
      MaskBound(group[..|group| - 1]);
      assert Pow(2, |group| + 1) == 2 * Pow(2, |group|);
      var bit := group[|group| - 1] % 2;
      assert bit * Pow(2, |group|) <= Pow(2, |group|) by { MulMono(bit, 1, Pow(2, |group|)); }
    }
  }

  function MaskByte(group: seq<Byte>): Byte
    requires |group| <= GROUP
  {
    MaskBound(group);
    PowMono(2, |group| + 1, 8);
    assert Pow(2, 8) == 0x100;
    Mask(group)
  }

  function EncodedGroup(group: seq<Byte>): seq<Byte>
    requires |group| <= GROUP
  {
    [MaskByte(group)] + Odds(group)
  }

  function Encoded(data: seq<Byte>): seq<Byte> {
    if |data| <= GROUP then (if data == [] then [] else EncodedGroup(data))
    else EncodedGroup(data[..GROUP]) + Encoded(data[GROUP..])
  }

  // ---- decoding ----

  function Restored(b: Byte, bit: nat): Byte {
    if bit == 1 || b == 0 then b else b - 1
  }

  function DecodedGroup(mask: Byte, bytes: seq<Byte>): seq<Byte> {
    seq(|bytes|, i requires 0 <= i < |bytes| => Restored(bytes[i], DigitAt(mask, 2, i + 1)))
  }

  /** A mask byte, then up to seven bytes, and so on. */
  function Decoded(s: seq<Byte>): seq<Byte> {
    if |s| <= GROUP + 1 then (if s == [] then [] else DecodedGroup(s[0], s[1..]))
    else DecodedGroup(s[0], s[1..GROUP + 1]) + Decoded(s[GROUP + 1..])
  }

  // ---- properties ----

  /** A bit added above a number shows where it was added and leaves the bits below alone. */
  lemma {:induction false} TopBit(w: nat, v: nat, k: nat, j: nat)
    requires w < Pow(2, k) && v < 2
    ensures DigitAt(w + v * Pow(2, k), 2, j) == if j < k then DigitAt(w, 2, j) else if j == k then v else 0
    decreases k
  {
    if k == 0 {
      assert w == 0 && v * Pow(2, 0) == v;
      if j > 0 { ZeroDigits(j - 1); }
    } else {
      var p := Pow(2, k - 1);
      assert w + v * Pow(2, k) == w + 2 * (v * p);
      Halved(w, v * p);
      if j > 0 { TopBit(w / 2, v, k - 1, j - 1); }
    }
  }

  lemma {:induction false} ZeroDigits(j: nat)
    ensures DigitAt(0, 2, j) == 0
  {
    if j > 0 { ZeroDigits(j - 1); }
  }

  lemma Halved(w: nat, x: nat)
    ensures (w + 2 * x) / 2 == w / 2 + x && (w + 2 * x) % 2 == w % 2
  {}

  lemma {:induction false} MaskBits(group: seq<Byte>, i: nat)
    requires i < |group|
    ensures DigitAt(Mask(group), 2, i + 1) == group[i] % 2
  {
    hide DigitAt, Pow;
    var front, n := group[..|group| - 1], |group|;
    MaskBound(front);
    TopBit(Mask(front), group[n - 1] % 2, n, i + 1);
    if i < n - 1 { MaskBits(front, i); }
  }

  lemma GroupRoundTrip(group: seq<Byte>)
    requires |group| <= GROUP
    ensures DecodedGroup(MaskByte(group), Odds(group)) == group
  {
    hide DigitAt, Mask;
    forall i: nat | i < |group| ensures Restored(Odd(group[i]), DigitAt(MaskByte(group), 2, i + 1)) == group[i] {
      MaskBits(group, i);
    }
  }

  /** Decoding undoes encoding, for every input. */
  lemma {:induction false} RoundTrip(data: seq<Byte>)
    ensures Decoded(Encoded(data)) == data
  {
    hide MaskByte, Odds, DecodedGroup;
    if |data| <= GROUP {
      GroupRoundTrip(data);
      if data != [] { assert EncodedGroup(data)[1..] == Odds(data); }
    } else {
      var head, rest := data[..GROUP], data[GROUP..];
      GroupRoundTrip(head);
      RoundTrip(rest);
      var s := Encoded(data);
      EncodedLength(rest);
      assert s[1..GROUP + 1] == Odds(head) && s[GROUP + 1..] == Encoded(rest);
      assert data == head + rest;
    }
  }

  /** One mask byte for every seven bytes or part of seven. */
  lemma {:induction false} EncodedLength(data: seq<Byte>)
    ensures |Encoded(data)| == |data| + (|data| + GROUP - 1) / GROUP
  {
    hide MaskByte;
    if |data| > GROUP { EncodedLength(data[GROUP..]); }
  }

  lemma {:induction false} MaskIsOdd(group: seq<Byte>)
    ensures Mask(group) % 2 == 1
  {
    if group != [] {
      MaskIsOdd(group[..|group| - 1]);
      var bit, p := group[|group| - 1] % 2, Pow(2, |group| - 1);
      assert bit * Pow(2, |group|) == 2 * (bit * p);
    }
  }

  /** Every encoded byte is odd, so none is the zero that would end the string. */
  lemma {:induction false} EncodedIsOdd(data: seq<Byte>)
    ensures forall b :: b in Encoded(data) ==> b % 2 == 1
    ensures 0 !in Encoded(data)
  {
    hide Mask;
    hide EncodedGroup;
    if |data| <= GROUP {
      GroupIsOdd(data);
    } else {
      GroupIsOdd(data[..GROUP]);
      EncodedIsOdd(data[GROUP..]);
    }
  }

  lemma GroupIsOdd(group: seq<Byte>)
    requires |group| <= GROUP
    ensures forall b :: b in EncodedGroup(group) ==> b % 2 == 1
  {
    hide Mask;
    MaskIsOdd(group);
  }

  // ---- the loop ----

  lemma {:induction false} EncodedSplits(data: seq<Byte>, k: nat)
    requires k <= |data| && k % GROUP == 0
    ensures Encoded(data) == Encoded(data[..k]) + Encoded(data[k..])
  {
    hide EncodedGroup;
    if k == 0 {
      assert data[0..] == data && data[..0] == [];
    } else if k == |data| {
      assert data[..k] == data && data[k..] == [];
    } else {
      var rest := data[GROUP..];
      EncodedSplits(rest, k - GROUP);
      assert rest[..k - GROUP] == data[..k][GROUP..] && rest[k - GROUP..] == data[k..];
      assert data[..k][..GROUP] == data[..GROUP];
      if k == GROUP { assert data[..k][GROUP..] == []; }
    }
  }

  lemma NextIndex(i: nat)
    ensures (i + 1) % GROUP == if i % GROUP == GROUP - 1 then 0 else i % GROUP + 1
  {}

  lemma GroupGrows(data: seq<Byte>, k: nat, i: nat)
    requires k <= i < |data|
    ensures Odds(data[k..i + 1]) == Odds(data[k..i]) + [Odd(data[i])]
    ensures Mask(data[k..i + 1]) == Mask(data[k..i]) + if data[i] % 2 == 0 then 0 else Pow(2, i - k + 1)
  {
    var group := data[k..i + 1];
    assert group[..|group| - 1] == data[k..i] && group[|group| - 1] == data[i];
  }

  /** Inserting the mask before the group's bytes completes the group. */
  lemma MaskInserted(data: seq<Byte>, k: nat, n: nat, result: seq<Byte>, mask: nat, at: nat)
    requires k < n <= |data| && n - k <= GROUP && k % GROUP == 0
    requires result == Encoded(data[..k]) + Odds(data[k..n]) && at == |result| - (n - k) && mask == Mask(data[k..n])
    ensures mask < 0x100 && result[..at] + [mask] + result[at..] == Encoded(data[..n])
  {
    hide Encoded, Mask, Odds;
    MaskFits(data[k..n]);
    GroupDone(data, k, n);
    assert result[..at] == Encoded(data[..k]) && result[at..] == Odds(data[k..n]);
  }

  /** i bytes are read; the groups up to k are encoded, the odd bytes of the next follow, its mask is being
      gathered. */
  ghost predicate Gathering(data: seq<Byte>, k: nat, i: nat, result: seq<Byte>, mask: nat) {
    && k <= i <= |data| && (if i < |data| then k % GROUP == 0 && i - k == i % GROUP else k == i)
    && result == Encoded(data[..k]) + Odds(data[k..i]) && mask == Mask(data[k..i])
  }

  /** The mask with the byte at i taken in. */
  function Gathered(data: seq<Byte>, i: nat, mask: nat): nat
    requires i < |data|
  {
    if data[i] % 2 != 0 then mask + Pow(2, i % GROUP + 1) else mask
  }

  predicate GroupEnds(data: seq<Byte>, i: nat) {
    i % GROUP == GROUP - 1 || i == |data| - 1
  }

  lemma GroupGoesOn(data: seq<Byte>, k: nat, i: nat, result: seq<Byte>, mask: nat)
    requires i < |data| && !GroupEnds(data, i) && Gathering(data, k, i, result, mask)
    ensures Gathering(data, k, i + 1, result + [Odd(data[i])], Gathered(data, i, mask))
  {
    hide Encoded, Pow, Mask, Odds, Odd;
    GroupGrows(data, k, i);
    NextIndex(i);
    assert result + [Odd(data[i])] == Encoded(data[..k]) + Odds(data[k..i + 1]);
  }

  lemma GroupComplete(data: seq<Byte>, k: nat, i: nat, result: seq<Byte>, mask: nat)
    requires i < |data| && GroupEnds(data, i) && Gathering(data, k, i, result, mask)
    ensures
      var grown, more := result + [Odd(data[i])], Gathered(data, i, mask);
      var at := |grown| - 1 - i % GROUP;
      && 0 <= at && more < 0x100
      && Gathering(data, i + 1, i + 1, grown[..at] + [more] + grown[at..], 1)
  {
    hide Encoded, Pow, Mask, Odds, Odd;
    GroupGrows(data, k, i);
    NextIndex(i);
    var grown := result + [Odd(data[i])];
    assert grown == Encoded(data[..k]) + Odds(data[k..i + 1]);
    MaskInserted(data, k, i + 1, grown, Mask(data[k..i + 1]), |grown| - 1 - i % GROUP);
    NothingYet(data, i + 1);
  }

  lemma NothingGathered(data: seq<Byte>)
    ensures Gathering(data, 0, 0, [], 1)
  {
    NothingYet(data, 0);
  }

  /** `util_encode_stat_string`: the mask of a group is inserted in front of it once the group is complete. */
  method Encode(data: seq<Byte>) returns (result: seq<Byte>)
    ensures result == Encoded(data)
  {
    hide Encoded, Pow, Mask, Odds, Odd, Gathering;
    NothingGathered(data);
    result := [];
    var mask: nat := 1;
    ghost var k := 0;
    for i := 0 to |data|
      invariant Gathering(data, k, i, result, mask)
    {
      ghost var before, was := result, mask;
      var r := i % GROUP;
      result := result + [Odd(data[i])];
      if data[i] % 2 != 0 { mask := mask + Pow(2, r + 1); }
      if r == GROUP - 1 || i == |data| - 1 {
        GroupComplete(data, k, i, before, was);
        var at := |result| - 1 - r;
        result := result[..at] + [mask] + result[at..];
        mask := 1;
        k := i + 1;
      } else {
        GroupGoesOn(data, k, i, before, was);
      }
    }
    AllGathered(data, k, result, mask);
  }

  lemma AllGathered(data: seq<Byte>, k: nat, result: seq<Byte>, mask: nat)
    requires Gathering(data, k, |data|, result, mask)
    ensures result == Encoded(data)
  {
    NothingYet(data, k);
    assert data[..|data|] == data;
  }

  lemma NothingYet(data: seq<Byte>, k: nat)
    requires k <= |data|
    ensures Encoded(data[..0]) == [] && Odds(data[k..k]) == [] && Mask(data[k..k]) == 1
  {}

  lemma MaskFits(group: seq<Byte>)
    requires |group| <= GROUP
    ensures Mask(group) == MaskByte(group)
  {}

  lemma GroupDone(data: seq<Byte>, k: nat, n: nat)
    requires k < n <= |data| && n - k <= GROUP && k % GROUP == 0
    ensures Encoded(data[..n]) == Encoded(data[..k]) + EncodedGroup(data[k..n])
  {
    hide EncodedGroup;
    EncodedSplits(data[..n], k);
    assert data[..n][..k] == data[..k] && data[..n][k..] == data[k..n];
  }
}
