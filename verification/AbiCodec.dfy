/**
 * The ABI encoding of the two settlement tuples, word by word. Both tuples have the same layout: four
 * bytes32, two dynamic arrays of numbers, three numbers. Encoding and decoding follow the section "Formal
 * Specification of the Encoding" of the Solidity Contract ABI Specification: a tuple with a dynamic
 * component is itself dynamic, so the data starts with its offset, and its head holds, for each array,
 * the offset of the array from the start of the head.
 */
module AbiCodec {
  import opened Evm

  const WORD: nat := 32
  const HEAD_WORDS: nat := 9

  datatype Tuple = Tuple(h0: Bytes32, h1: Bytes32, h2: Bytes32, h3: Bytes32, xs: seq<uint256>, ys: seq<uint256>,
                         n0: uint256, n1: uint256, n2: uint256)

  /** Array lengths an ABI decoder accepts. */
  predicate Encodable(t: Tuple) { |t.xs| < TWO_64 && |t.ys| < TWO_64 }

  function Words(xs: seq<uint256>): (ws: seq<Bytes32>)
    ensures |ws| == |xs| && forall i :: 0 <= i < |xs| ==> ws[i] == Word(xs[i])
  {
    seq(|xs|, i requires 0 <= i < |xs| => Word(xs[i]))
  }

  function Head(t: Tuple): seq<Bytes32>
    requires Encodable(t)
  {
    [t.h0, t.h1, t.h2, t.h3, Word(WORD * HEAD_WORDS), Word(WORD * (HEAD_WORDS + 1 + |t.xs|)), Word(t.n0), Word(t.n1),
     Word(t.n2)]
  }

  function EncodeArray(xs: seq<uint256>): seq<Bytes32>
    requires |xs| < TWO_64
  {
    [Word(|xs|)] + Words(xs)
  }

  function Encode(t: Tuple): seq<Bytes32>
    requires Encodable(t)
  {
    [Word(WORD)] + Head(t) + EncodeArray(t.xs) + EncodeArray(t.ys)
  }

  // ---- Decoding follows the offsets it finds ----

  /** The number in word `i`. */
  function Number(ws: seq<Bytes32>, i: nat): Option<uint256>
  {
    if i < |ws| && ws[i].Word? then Some(ws[i].value) else None
  }

  /** The word index that the byte offset in word `i` points to, counted from word `base`. */
  function Target(ws: seq<Bytes32>, i: nat, base: nat): Option<nat>
  {
    var offset := Number(ws, i);
    if offset.Some? && offset.value % WORD == 0 then Some(base + offset.value / WORD) else None
  }

  function Numbers(ws: seq<Bytes32>): Option<seq<uint256>>
  {
    if forall i :: 0 <= i < |ws| ==> ws[i].Word?
    then Some(seq(|ws|, i requires 0 <= i < |ws| && ws[i].Word? => ws[i].value))
    else None
  }

  function DecodeArray(ws: seq<Bytes32>, i: nat): Option<seq<uint256>>
  {
    var length := Number(ws, i);
    if length.Some? && length.value < TWO_64 && i + 1 + length.value <= |ws|
    then Numbers(ws[i + 1..i + 1 + length.value])
    else None
  }

  function DecodeArrayAt(ws: seq<Bytes32>, i: nat, base: nat): Option<seq<uint256>>
  {
    var start := Target(ws, i, base);
    if start.Some? then DecodeArray(ws, start.value) else None
  }

  function Decode(ws: seq<Bytes32>): Option<Tuple>
  {
    var start := Target(ws, 0, 0);
    if start.None? || start.value + HEAD_WORDS > |ws| then None
    else
      var b := start.value;
      var xs, ys := DecodeArrayAt(ws, b + 4, b), DecodeArrayAt(ws, b + 5, b);
      var n0, n1, n2 := Number(ws, b + 6), Number(ws, b + 7), Number(ws, b + 8);
      if xs.None? || ys.None? || n0.None? || n1.None? || n2.None? then None
      else Some(Tuple(ws[b], ws[b + 1], ws[b + 2], ws[b + 3], xs.value, ys.value, n0.value, n1.value, n2.value))
  }

  lemma WordsDecode(xs: seq<uint256>)
    ensures Numbers(Words(xs)) == Some(xs)
  {
    assert Numbers(Words(xs)).value == xs;
  }

  /** An encoded array decodes wherever it lies. */
  lemma ArrayDecodes(before: seq<Bytes32>, xs: seq<uint256>, after: seq<Bytes32>)
    requires |xs| < TWO_64
    ensures DecodeArray(before + EncodeArray(xs) + after, |before|) == Some(xs)
  {
    var ws, i := before + EncodeArray(xs) + after, |before|;
    assert ws[i] == Word(|xs|);
    assert ws[i + 1..i + 1 + |xs|] == Words(xs);
    WordsDecode(xs);
  }

  lemma HeadWords(t: Tuple)
    requires Encodable(t)
    ensures var ws := Encode(t);
            && |ws| == 12 + |t.xs| + |t.ys| && ws[0] == Word(WORD)
            && forall i :: 0 <= i < HEAD_WORDS ==> ws[1 + i] == Head(t)[i]
  {
  }

  /** The head's offsets lead to the two arrays. */
  lemma OffsetsLead(t: Tuple)
    requires Encodable(t)
    ensures var ws := Encode(t);
            && Target(ws, 0, 0) == Some(1) && Target(ws, 5, 1) == Some(10) && Target(ws, 6, 1) == Some(11 + |t.xs|)
            && ws[1..5] == [t.h0, t.h1, t.h2, t.h3]
            && Number(ws, 7) == Some(t.n0) && Number(ws, 8) == Some(t.n1) && Number(ws, 9) == Some(t.n2)
  {
    hide Encode;
    var ws := Encode(t);
    HeadWords(t);
    assert forall i :: 1 <= i <= HEAD_WORDS ==> ws[i] == Head(t)[i - 1] by {
      assert forall i :: 1 <= i <= HEAD_WORDS ==> ws[i] == ws[1 + (i - 1)];
    }
  }

  lemma ArraysDecode(t: Tuple)
    requires Encodable(t)
    ensures DecodeArray(Encode(t), 10) == Some(t.xs) && DecodeArray(Encode(t), 11 + |t.xs|) == Some(t.ys)
  {
    hide DecodeArray, EncodeArray;
    var ws := Encode(t);
    var front := [Word(WORD)] + Head(t);
    ArrayLength(t.xs);
    ArrayDecodes(front, t.xs, EncodeArray(t.ys));
    ArrayDecodes(front + EncodeArray(t.xs), t.ys, []);
    assert ws == front + EncodeArray(t.xs) + EncodeArray(t.ys) + [];
  }

  lemma ArrayLength(xs: seq<uint256>)
    requires |xs| < TWO_64
    ensures |EncodeArray(xs)| == 1 + |xs|
  {
  }

  /** Decoding undoes encoding. */
  lemma RoundTrip(t: Tuple)
    requires Encodable(t)
    ensures Decode(Encode(t)) == Some(t)
  {
    hide Encode, DecodeArray, Target, Number;
    var ws := Encode(t);
    HeadWords(t);
    OffsetsLead(t);
    ArraysDecode(t);
    assert ws[1..5][0] == ws[1] && ws[1..5][1] == ws[2] && ws[1..5][2] == ws[3] && ws[1..5][3] == ws[4];
  }

  // ---- The two tuples ----

  datatype Request = Request(
    schemaVersion: Bytes32, policyId: Bytes32, externalProofDigest: Bytes32, privateInputHash: Bytes32,
    recipients: seq<Address>, sharesBps: seq<uint16>, total: uint256, nonce: uint64, expiry: uint64)

  function RequestTuple(q: Request): Tuple
  {
    Tuple(q.schemaVersion, q.policyId, q.externalProofDigest, q.privateInputHash, q.recipients, q.sharesBps, q.total,
          q.nonce, q.expiry)
  }

  function ResultTuple(r: SettlementResult): Tuple
  {
    Tuple(r.policyId, r.externalProofDigest, r.privateInputHash, r.computationReference, r.recipients, r.amounts,
          r.total, r.nonce, r.expiry)
  }

  predicate Below(xs: seq<uint256>, bound: nat) { forall i :: 0 <= i < |xs| ==> xs[i] < bound }

  /** Decoding also checks the width of every component. */
  function DecodeRequest(ws: seq<Bytes32>): Option<Request>
  {
    var t := Decode(ws);
    if t.Some? && Below(t.value.xs, TWO_160) && Below(t.value.ys, TWO_16) && t.value.n1 < TWO_64 && t.value.n2 < TWO_64
    then Some(Request(t.value.h0, t.value.h1, t.value.h2, t.value.h3, t.value.xs, t.value.ys, t.value.n0, t.value.n1,
                      t.value.n2))
    else None
  }

  function DecodeResult(ws: seq<Bytes32>): Option<SettlementResult>
  {
    var t := Decode(ws);
    if t.Some? && Below(t.value.xs, TWO_160) && t.value.n1 < TWO_64 && t.value.n2 < TWO_64
    then Some(SettlementResult(t.value.h0, t.value.h1, t.value.h2, t.value.h3, t.value.xs, t.value.ys, t.value.n0,
                               t.value.n1, t.value.n2))
    else None
  }

  function EncodeRequest(q: Request): seq<Bytes32>
    requires Encodable(RequestTuple(q))
  {
    Encode(RequestTuple(q))
  }

  function EncodeResult(r: SettlementResult): seq<Bytes32>
    requires Encodable(ResultTuple(r))
  {
    Encode(ResultTuple(r))
  }

  lemma RequestRoundTrip(q: Request)
    requires Encodable(RequestTuple(q))
    ensures DecodeRequest(EncodeRequest(q)) == Some(q)
  {
    RoundTrip(RequestTuple(q));
  }

  lemma ResultRoundTrip(r: SettlementResult)
    requires Encodable(ResultTuple(r))
    ensures DecodeResult(EncodeResult(r)) == Some(r)
  {
    RoundTrip(ResultTuple(r));
  }

  /** Equal signed data means equal recipients, amounts, nonce, expiry and commitments. */
  lemma ResultEncodingInjective(r: SettlementResult, r': SettlementResult)
    requires Encodable(ResultTuple(r)) && Encodable(ResultTuple(r')) && EncodeResult(r) == EncodeResult(r')
    ensures r == r'
  {
    ResultRoundTrip(r);
    ResultRoundTrip(r');
  }

  /**
   * The words in the order of the specification: offset of the tuple, its head with the offsets of the two arrays, and
   * each array with its length in front.
   */
  predicate LaidOut(ws: seq<Bytes32>, h: seq<Bytes32>, xs: seq<uint256>, ys: seq<uint256>, n: seq<uint256>)
    requires |h| == 4 && |n| == 3
  {
    && |ws| == 12 + |xs| + |ys|
    && ws[0] == Word(32) && ws[1..5] == h
    && ws[5] == Word(9 * 32) && ws[6].Word? && ws[6].value == (10 + |xs|) * 32
    && (forall i :: 0 <= i < 3 ==> ws[7 + i] == Word(n[i]))
    && ws[10].Word? && ws[10].value == |xs| && (forall i :: 0 <= i < |xs| ==> ws[11 + i] == Word(xs[i]))
    && ws[11 + |xs|].Word? && ws[11 + |xs|].value == |ys|
    && (forall i :: 0 <= i < |ys| ==> ws[12 + |xs| + i] == Word(ys[i]))
  }

  lemma TupleLayout(t: Tuple)
    requires Encodable(t)
    ensures LaidOut(Encode(t), [t.h0, t.h1, t.h2, t.h3], t.xs, t.ys, [t.n0, t.n1, t.n2])
  {
  }

  lemma RequestLayout(q: Request)
    requires Encodable(RequestTuple(q))
    ensures LaidOut(EncodeRequest(q), [q.schemaVersion, q.policyId, q.externalProofDigest, q.privateInputHash],
                    q.recipients, q.sharesBps, [q.total, q.nonce, q.expiry])
  {
    hide Encode, LaidOut;
    TupleLayout(RequestTuple(q));
  }

  lemma ResultLayout(r: SettlementResult)
    requires Encodable(ResultTuple(r))
    ensures LaidOut(EncodeResult(r), [r.policyId, r.externalProofDigest, r.privateInputHash, r.computationReference],
                    r.recipients, r.amounts, [r.total, r.nonce, r.expiry])
  {
    hide Encode, LaidOut;
    TupleLayout(ResultTuple(r));
  }

  // ---- Decoding goes where the offsets point ----

  function SpreadHead(t: Tuple, gap: seq<Bytes32>, gap': seq<Bytes32>): seq<Bytes32>
    requires Encodable(t) && |gap| < TWO_64 && |gap'| < TWO_64
  {
    [t.h0, t.h1, t.h2, t.h3, Word(WORD * (HEAD_WORDS + |gap|)), Word(WORD * (HEAD_WORDS + |gap| + 1 + |t.xs| + |gap'|)),
     Word(t.n0), Word(t.n1), Word(t.n2)]
  }

  /** The tuple with other words before its head and before each array, the offsets adjusted. */
  function EncodeSpread(t: Tuple, pad: seq<Bytes32>, gap: seq<Bytes32>, gap': seq<Bytes32>): seq<Bytes32>
    requires Encodable(t) && |pad| < TWO_64 && |gap| < TWO_64 && |gap'| < TWO_64
  {
    [Word(WORD * (1 + |pad|))] + pad + SpreadHead(t, gap, gap') + gap + EncodeArray(t.xs) + gap' + EncodeArray(t.ys)
  }

  lemma DecodesBy(ws: seq<Bytes32>, t: Tuple, b: nat, i: nat, j: nat)
    requires Target(ws, 0, 0) == Some(b) && b + HEAD_WORDS <= |ws|
    requires ws[b] == t.h0 && ws[b + 1] == t.h1 && ws[b + 2] == t.h2 && ws[b + 3] == t.h3
    requires Target(ws, b + 4, b) == Some(i) && DecodeArray(ws, i) == Some(t.xs)
    requires Target(ws, b + 5, b) == Some(j) && DecodeArray(ws, j) == Some(t.ys)
    requires Number(ws, b + 6) == Some(t.n0) && Number(ws, b + 7) == Some(t.n1) && Number(ws, b + 8) == Some(t.n2)
    ensures Decode(ws) == Some(t)
  {
    hide DecodeArray, Target, Number;
  }

  lemma TargetOf(ws: seq<Bytes32>, i: nat, base: nat, k: nat)
    requires i < |ws| && WORD * k < TWO_256 && ws[i] == Word(WORD * k)
    ensures Target(ws, i, base) == Some(base + k)
  {
  }

  lemma SpreadArrays(t: Tuple, front: seq<Bytes32>, gap: seq<Bytes32>, gap': seq<Bytes32>)
    requires Encodable(t)
    ensures var ws := front + gap + EncodeArray(t.xs) + gap' + EncodeArray(t.ys);
            && |ws| == |front| + |gap| + |gap'| + 2 + |t.xs| + |t.ys|
            && DecodeArray(ws, |front| + |gap|) == Some(t.xs)
            && DecodeArray(ws, |front| + |gap| + 1 + |t.xs| + |gap'|) == Some(t.ys)
  {
    hide DecodeArray, EncodeArray;
    var ws := front + gap + EncodeArray(t.xs) + gap' + EncodeArray(t.ys);
    ArrayLength(t.xs);
    ArrayLength(t.ys);
    ArrayDecodes(front + gap, t.xs, gap' + EncodeArray(t.ys));
    ArrayDecodes(front + gap + EncodeArray(t.xs) + gap', t.ys, []);
    assert ws == front + gap + EncodeArray(t.xs) + (gap' + EncodeArray(t.ys));
    assert ws == front + gap + EncodeArray(t.xs) + gap' + EncodeArray(t.ys) + [];
  }

  /** Wherever head and arrays lie, decoding finds them by their offsets. */
  lemma SpreadDecodes(t: Tuple, pad: seq<Bytes32>, gap: seq<Bytes32>, gap': seq<Bytes32>)
    requires Encodable(t) && |pad| < TWO_64 && |gap| < TWO_64 && |gap'| < TWO_64
    ensures Decode(EncodeSpread(t, pad, gap, gap')) == Some(t)
  {
    hide Decode, DecodeArray, EncodeArray, Target;
    var ws := EncodeSpread(t, pad, gap, gap');
    var head := SpreadHead(t, gap, gap');
    var front := [Word(WORD * (1 + |pad|))] + pad;
    var b := |front|;
    SpreadArrays(t, front + head, gap, gap');
    assert forall i :: 0 <= i < HEAD_WORDS ==> ws[b + i] == head[i];
    TargetOf(ws, 0, 0, 1 + |pad|);
    TargetOf(ws, b + 4, b, HEAD_WORDS + |gap|);
    TargetOf(ws, b + 5, b, HEAD_WORDS + |gap| + 1 + |t.xs| + |gap'|);
    assert ws[b] == head[0] && ws[b + 1] == head[1] && ws[b + 2] == head[2] && ws[b + 3] == head[3];
    assert ws[b + 6] == head[6] && ws[b + 7] == head[7] && ws[b + 8] == head[8];
    DecodesBy(ws, t, b, b + HEAD_WORDS + |gap|, b + HEAD_WORDS + |gap| + 1 + |t.xs| + |gap'|);
  }
}
