/**
 Outcomes of the byte readers, and the ULEB128 fields of section 7.6 of DWARF 5.
 */
module Uleb {
  import opened Bits
  import opened Bytes

  /** The exceptions a reader can raise: an index past the end, or one of the decoder's own. */
  datatype Error = OutOfBytes | InvalidUleb | NoTerminator | InvalidTrie | UnconsumedTerminal

  datatype Result<+T> = Ok(value: T) | Err(error: Error)
  {
    predicate IsFailure() { Err? }
    function PropagateFailure<U>(): Result<U>
      requires Err?
    {
      Err(error)
    }
    function Extract(): T
      requires Ok?
    {
      value
    }
  }

  const MAX_BYTES: nat := 10

  /** The number a group of seven-bit digits stands for, least significant first. */
  function Value(bs: bytes): (r: nat)
  {
    if bs == [] then 0 else bs[0] % 128 + 128 * Value(bs[1..])
  }

  /** Bytes `[pos, next)` are one ULEB128 field of at most ten bytes holding `value`. */
  predicate UlebAt(data: bytes, pos: nat, value: nat, next: nat) {
    && pos < next <= |data| && next - pos <= MAX_BYTES
    && (forall i :: pos <= i < next - 1 ==> data[i] >= 128)
    && data[next - 1] < 128
    && value == Value(data[pos..next])
  }

  /** Where the field starting at `pos` ends, looking at no more than `left` bytes. */
  function UlebEnd(data: bytes, pos: nat, left: nat): (r: Result<nat>)
    ensures r.Ok? ==> pos < r.value <= |data| && r.value - pos <= left
    ensures r.Ok? ==> data[r.value - 1] < 128 && forall i :: pos <= i < r.value - 1 ==> data[i] >= 128
    ensures r == Err(OutOfBytes) ==> |data| - pos < left && forall i :: pos <= i < |data| ==> data[i] >= 128
    ensures r == Err(InvalidUleb) ==> pos + left <= |data| || left == 0
    ensures r == Err(InvalidUleb) ==> forall i :: pos <= i < pos + left && i < |data| ==> data[i] >= 128
    ensures r.Err? ==> r.error in {OutOfBytes, InvalidUleb}
    decreases left
  {
    if left == 0 then Err(InvalidUleb)
    else if pos >= |data| then Err(OutOfBytes)
    else if data[pos] < 128 then Ok(pos + 1)
    else UlebEnd(data, pos + 1, left - 1)
  }

  function Read(data: bytes, pos: nat): (r: Result<(nat, nat)>)
    ensures r.Ok? ==> UlebAt(data, pos, r.value.0, r.value.1)
  {
    var next :- UlebEnd(data, pos, MAX_BYTES);
    Ok((Value(data[pos..next]), next))
  }

  /** A field has only one reading. */
  lemma ReadExactly(data: bytes, pos: nat, value: nat, next: nat)
    ensures UlebAt(data, pos, value, next) <==> Read(data, pos) == Ok((value, next))
  {
    if UlebAt(data, pos, value, next) {
      EndFound(data, pos, next, MAX_BYTES);
    }
  }

  lemma {:induction false} EndFound(data: bytes, pos: nat, next: nat, left: nat)
    requires pos < next <= |data| && next - pos <= left
    requires forall i :: pos <= i < next - 1 ==> data[i] >= 128
    requires data[next - 1] < 128
    ensures UlebEnd(data, pos, left) == Ok(next)
    decreases left
  {
    if next > pos + 1 {
      EndFound(data, pos + 1, next, left - 1);
    }
  }

  // ----- the loop -----

  lemma {:induction false} ValueAppend(bs: bytes, b: byte)
    ensures Value(bs + [b]) == Value(bs) + Pow2(7 * |bs|) * (b % 128)
  {
    if bs == [] {
      assert [b][1..] == [];
    } else {
      assert (bs + [b])[1..] == bs[1..] + [b];
      ValueAppend(bs[1..], b);
      Pow2Digit(|bs| - 1);
      Distribute(Value(bs[1..]), Pow2(7 * (|bs| - 1)), b % 128);
    }
  }

  lemma Distribute(v: nat, p: nat, d: nat)
    ensures 128 * (v + p * d) == 128 * v + (128 * p) * d
  {
  }

  lemma Pow2Digit(k: nat)
    ensures Pow2(7 * (k + 1)) == 128 * Pow2(7 * k)
  {
    Pow2Add(7, 7 * k);
    assert Pow2(7) == 128 by {
      assert Pow2(3) == 8 && Pow2(6) == 8 * Pow2(3);
    }
  }

  lemma {:induction false} ValueBound(bs: bytes)
    ensures Value(bs) < Pow2(7 * |bs|)
  {
    if bs != [] {
      ValueBound(bs[1..]);
      Pow2Digit(|bs| - 1);
    }
  }

  /** One iteration: `value |= (x & 127) << shift`. */
  lemma AppendDigit(bs: bytes, b: byte)
    ensures Or(Value(bs), And(b, 127) * Pow2(7 * |bs|)) == Value(bs + [b])
  {
    hide *;
    ValueAppend(bs, b);
    ValueBound(bs);
    LowSeven(b);
    OrShifted(Value(bs), b % 128, 7 * |bs|);
  }

  lemma LowSeven(b: byte)
    ensures And(b, 127) == b % 128
    ensures And(b, 128) == 0 <==> b < 128
  {
    hide And, AndNot, Trunc;
    SevenBits();
    LowMask(b, 7);
    TruncIsMod(b, 7);
    TopByteBit(b, 7);
  }

  lemma SevenBits()
    ensures Pow2(7) == 128
  {
    assert Pow2(3) == 8 && Pow2(6) == 8 * Pow2(3);
  }

  lemma {:induction false} TopByteBit(b: nat, k: nat)
    requires b < 2 * Pow2(k)
    ensures And(b, Pow2(k)) == 0 <==> b < Pow2(k)
  {
    if k > 0 {
      TopByteBit(b / 2, k - 1);
    } else {
      AndZero(b / 2);
    }
  }

  method ReadUleb(data: bytes, pos0: nat) returns (r: Result<(nat, nat)>)
    ensures r == Read(data, pos0)
  {
    hide And, Or, Pow2, Value, UlebEnd;
    var value, pos, shift := 0, pos0, 0;
    EmptyValue();
    while shift < 70
      invariant shift == 7 * (pos - pos0) && 0 <= shift <= 70 && pos0 <= pos
      invariant pos0 < pos ==> pos <= |data|
      invariant value == if pos0 < pos then Value(data[pos0..pos]) else 0
      invariant UlebEnd(data, pos0, MAX_BYTES) == UlebEnd(data, pos, MAX_BYTES - (pos - pos0))
    {
      EndStep(data, pos, MAX_BYTES - (pos - pos0));
      if pos >= |data| {
        return Err(OutOfBytes);
      }
      var x := data[pos];
      AppendDigit(data[pos0..pos], x);
      LowSeven(x);
      assert data[pos0..pos] + [x] == data[pos0..pos + 1];
      value := Or(value, And(x, 127) * Pow2(shift));
      pos := pos + 1;
      if And(x, 128) == 0 {
        return Ok((value, pos));
      }
      shift := shift + 7;
    }
    EndStep(data, pos, 0);
    return Err(InvalidUleb);
  }

  lemma EmptyValue()
    ensures Value([]) == 0
  {
  }

  lemma EndStep(data: bytes, pos: nat, left: nat)
    ensures left == 0 ==> UlebEnd(data, pos, left) == Err(InvalidUleb)
    ensures left > 0 && pos >= |data| ==> UlebEnd(data, pos, left) == Err(OutOfBytes)
    ensures left > 0 && pos < |data| ==>
              UlebEnd(data, pos, left) == if data[pos] < 128 then Ok(pos + 1) else UlebEnd(data, pos + 1, left - 1)
  {
  }

  // ----- the canonical encoding -----

  function Encode(n: nat): (bs: bytes)
    ensures |bs| > 0
  {
    if n < 128 then [n] else [n % 128 + 128] + Encode(n / 128)
  }

  lemma {:induction false} EncodeShape(n: nat)
    ensures Value(Encode(n)) == n
    ensures Encode(n)[|Encode(n)| - 1] < 128
    ensures forall i :: 0 <= i < |Encode(n)| - 1 ==> Encode(n)[i] >= 128
  {
    var bs := Encode(n);
    if n >= 128 {
      EncodeShape(n / 128);
      assert bs[1..] == Encode(n / 128);
      assert forall i :: 1 <= i < |bs| ==> bs[i] == Encode(n / 128)[i - 1];
    } else {
      assert bs[1..] == [];
    }
  }

  lemma {:induction false} EncodeLength(n: nat, k: nat)
    requires k > 0
    ensures |Encode(n)| <= k <==> n < Pow2(7 * k)
  {
    Pow2Digit(k - 1);
    if n >= 128 {
      if k == 1 {
        assert Pow2(0) == 1;
      } else {
        EncodeLength(n / 128, k - 1);
      }
    } else {
      assert Pow2(7 * (k - 1)) >= 1;
    }
  }

  /** Reading an encoded number back, wherever it stands: exactly the numbers below 2^70 survive. */
  lemma EncodeRoundTrip(before: bytes, n: nat, after: bytes)
    ensures Read(before + Encode(n) + after, |before|) == Ok((n, |before| + |Encode(n)|)) <==> n < Pow2(70)
    ensures n < Pow2(70) ==> |Encode(n)| <= MAX_BYTES
  {
    hide Encode, Value, Pow2, UlebEnd;
    var data, next := before + Encode(n) + after, |before| + |Encode(n)|;
    EncodeShape(n);
    EncodeLength(n, MAX_BYTES);
    assert data[|before|..next] == Encode(n);
    assert forall i :: 0 <= i < |Encode(n)| ==> data[|before| + i] == Encode(n)[i];
    assert forall i :: |before| <= i < next ==> data[i] == Encode(n)[i - |before|];
    ReadExactly(data, |before|, n, next);
  }
}
