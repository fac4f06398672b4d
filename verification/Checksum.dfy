/** The table checksum: per-row digests folded by exclusive or, under a prefix-rewrite rule.

    The digest is an arbitrary left fold over bytes; only its streaming behaviour matters. */
module Checksum {
  import opened Wrappers

  type Byte = bv8
  type Bytes = seq<Byte>

  /** A streaming digest: initial state, absorption of one byte, and the 64-bit result. */
  datatype Digest<!S> = Digest(init: S, step: (S, Byte) -> S, sum: S -> bv64)

  datatype Row = Row(key: Bytes, value: Bytes)
  datatype Rule = Rule(oldPrefix: Bytes, newPrefix: Bytes)
  datatype Algorithm = Crc64Xor | OtherAlgorithm
  datatype Error = UnknownAlgorithm | WrongPrefix | ScanFailed
  datatype Totals = Totals(checksum: bv64, kvs: nat, bytes: nat)

  const NO_RULE := Rule([], [])

  /** The digest state after absorbing `bs`. */
  function Absorb<S>(d: Digest<S>, s: S, bs: Bytes): S {
    if bs == [] then s else Absorb(d, d.step(s, bs[0]), bs[1..])
  }

  /** The reference meaning of a digest state: every byte stepped in, the last one last. */
  ghost function Fold<S>(d: Digest<S>, bs: Bytes): S {
    if bs == [] then d.init else d.step(Fold(d, bs[..|bs| - 1]), bs[|bs| - 1])
  }

  /** Absorbing continues where the bytes before left off. */
  lemma {:induction false} AbsorbContinues<S>(d: Digest<S>, a: Bytes, b: Bytes)
    ensures Absorb(d, Fold(d, a), b) == Fold(d, a + b)
    decreases |b|
  {
    if b == [] {
      assert a + b == a;
    } else {
      var next := a + [b[0]];
      assert next[..|next| - 1] == a;
      AbsorbContinues(d, next, b[1..]);
      assert next + b[1..] == a + b;
    }
  }

  /** A digest that remembers all bytes and sums them by `f`. */
  function Trace(f: Bytes -> bv64): Digest<Bytes> {
    Digest([], (s: Bytes, b: Byte) => s + [b], f)
  }

  lemma {:induction false} TraceRemembers(f: Bytes -> bv64, bs: Bytes)
    ensures Fold(Trace(f), bs) == bs
    decreases |bs|
  {
    hide Trace;
    if bs == [] {
      TraceStep(f, [], 0);
    } else {
      var init, last := bs[..|bs| - 1], bs[|bs| - 1];
      TraceRemembers(f, init);
      TraceStep(f, init, last);
      assert init + [last] == bs;
    }
  }

  lemma TraceStep(f: Bytes -> bv64, s: Bytes, b: Byte)
    ensures Trace(f).init == [] && Trace(f).step(s, b) == s + [b]
  {
  }

  function ChecksumCrc64Xor<S>(d: Digest<S>, checksum: bv64, s: S, suffix: Bytes, v: Bytes): bv64 {
    Xor(checksum, d.sum(Absorb(d, Absorb(d, s, suffix), v)))
  }

  function Xor(a: bv64, b: bv64): bv64 {
    a ^ b
  }

  predicate StartsWith(k: Bytes, prefix: Bytes) {
    prefix <= k
  }

  /** What the row is checked as: its key with the new prefix replaced by the old one. */
  function Rewritten(rule: Rule, r: Row): Row
    requires StartsWith(r.key, rule.newPrefix)
  {
    Row(rule.oldPrefix + r.key[|rule.newPrefix|..], r.value)
  }

  /** The reference meaning of one row: the digest of key then value, from scratch. */
  ghost function RowDigest<S>(d: Digest<S>, r: Row): bv64 {
    d.sum(Fold(d, r.key + r.value))
  }

  ghost function XorAll<S>(d: Digest<S>, rows: seq<Row>): bv64 {
    if rows == [] then 0 else Xor(RowDigest(d, rows[0]), XorAll(d, rows[1..]))
  }

  function BytesAll(rows: seq<Row>): nat {
    if rows == [] then 0 else |rows[0].key| + |rows[0].value| + BytesAll(rows[1..])
  }

  /** The reference meaning of a scan without a rule. */
  ghost function TotalsOf<S>(d: Digest<S>, rows: seq<Row>): Totals {
    Totals(XorAll(d, rows), |rows|, BytesAll(rows))
  }

  ghost predicate AllStartWith(rows: seq<Row>, prefix: Bytes) {
    forall i :: 0 <= i < |rows| ==> StartsWith(rows[i].key, prefix)
  }

  ghost function RewrittenAll(rule: Rule, rows: seq<Row>): (r: seq<Row>)
    requires AllStartWith(rows, rule.newPrefix)
    ensures |r| == |rows| && forall i :: 0 <= i < |rows| ==> r[i] == Rewritten(rule, rows[i])
  {
    seq(|rows|, i requires 0 <= i < |rows| => Rewritten(rule, rows[i]))
  }

  /** The reference meaning of a scan under a rule: the rewritten rows scanned without one. */
  ghost function ScanTotals<S>(d: Digest<S>, rule: Rule, rows: seq<Row>): Totals
    requires AllStartWith(rows, rule.newPrefix)
  {
    TotalsOf(d, RewrittenAll(rule, rows))
  }

  lemma XorSwap(a: bv64, b: bv64, c: bv64)
    ensures Xor(a, Xor(b, c)) == Xor(b, Xor(a, c))
  {
  }

  lemma XorCommutes(a: bv64, b: bv64)
    ensures Xor(a, b) == Xor(b, a)
  {
  }

  lemma XorAssociative(a: bv64, b: bv64, c: bv64)
    ensures Xor(a, Xor(b, c)) == Xor(Xor(a, b), c)
  {
    hide Xor;
    XorCommutes(b, c);
    XorSwap(a, c, b);
    XorCommutes(c, Xor(a, b));
  }

  lemma XorZero(a: bv64)
    ensures Xor(a, 0) == a && Xor(0, a) == a
  {
  }

  /** Totals of two scans, one after the other. */
  lemma {:induction false} TotalsAppend<S>(d: Digest<S>, a: seq<Row>, b: seq<Row>)
    ensures XorAll(d, a + b) == Xor(XorAll(d, a), XorAll(d, b))
    ensures BytesAll(a + b) == BytesAll(a) + BytesAll(b)
    decreases |a|
  {
    hide Xor, RowDigest;
    if a == [] {
      assert a + b == b;
      XorZero(XorAll(d, b));
    } else {
      TotalsAppend(d, a[1..], b);
      assert (a + b)[0] == a[0] && (a + b)[1..] == a[1..] + b;
      XorAssociative(RowDigest(d, a[0]), XorAll(d, a[1..]), XorAll(d, b));
    }
  }

  lemma TotalsOne<S>(d: Digest<S>, r: Row)
    ensures TotalsOf(d, [r]) == Totals(RowDigest(d, r), 1, |r.key| + |r.value|)
  {
    hide Xor, RowDigest;
    XorZero(RowDigest(d, r));
    assert [r][0] == r && [r][1..] == [];
    assert XorAll(d, [r]) == Xor(RowDigest(d, r), XorAll(d, []));
    assert BytesAll([r]) == |r.key| + |r.value| + BytesAll([]);
  }

  /** Digesting the old prefix once and then the rest of the key is digesting the rewritten key. */
  lemma RowIsRewritten<S>(d: Digest<S>, rule: Rule, r: Row, checksum: bv64)
    requires StartsWith(r.key, rule.newPrefix)
    ensures ChecksumCrc64Xor(d, checksum, Absorb(d, d.init, rule.oldPrefix), r.key[|rule.newPrefix|..], r.value)
            == Xor(checksum, RowDigest(d, Rewritten(rule, r)))
  {
    hide Xor, Absorb, Fold;
    var suffix := r.key[|rule.newPrefix|..];
    NothingFolded(d);
    AbsorbContinues(d, [], rule.oldPrefix);
    assert [] + rule.oldPrefix == rule.oldPrefix;
    AbsorbContinues(d, rule.oldPrefix, suffix);
    AbsorbContinues(d, rule.oldPrefix + suffix, r.value);
  }

  lemma NothingFolded<S>(d: Digest<S>)
    ensures Fold(d, []) == d.init
  {
  }

  /** The position of the first row without the prefix, or the number of rows. */
  ghost function FirstForeign(rows: seq<Row>, prefix: Bytes): (n: nat)
    ensures n <= |rows| && AllStartWith(rows[..n], prefix)
    ensures n < |rows| ==> !StartsWith(rows[n].key, prefix)
  {
    if rows == [] || !StartsWith(rows[0].key, prefix) then 0
    else
      var n := FirstForeign(rows[1..], prefix);
      assert rows[..n + 1] == [rows[0]] + rows[1..][..n];
      n + 1
  }

  /** The totals after one more row under the rule. */
  lemma OneMoreRow<S>(d: Digest<S>, u: Rule, rows: seq<Row>, i: nat)
    requires i < |rows| && AllStartWith(rows[..i + 1], u.newPrefix)
    ensures AllStartWith(rows[..i], u.newPrefix) && StartsWith(rows[i].key, u.newPrefix)
    ensures var was, now := ScanTotals(d, u, rows[..i]), ScanTotals(d, u, rows[..i + 1]);
            && now.checksum == Xor(was.checksum, RowDigest(d, Rewritten(u, rows[i])))
            && now.kvs == was.kvs + 1
            && now.bytes == was.bytes + (|rows[i].key| + |rows[i].value| + |u.oldPrefix| - |u.newPrefix|)
  {
    hide Xor, RowDigest;
    assert rows[..i + 1] == rows[..i] + [rows[i]];
    assert rows[..i + 1][i] == rows[i];
    assert forall j :: 0 <= j < i ==> rows[..i][j] == rows[..i + 1][j];
    var before, last := RewrittenAll(u, rows[..i]), Rewritten(u, rows[i]);
    assert RewrittenAll(u, rows[..i + 1]) == before + [last];
    TotalsAppend(d, before, [last]);
    TotalsOne(d, last);
  }

  lemma ForeignHere(rows: seq<Row>, prefix: Bytes, i: nat)
    requires i < |rows| && i <= FirstForeign(rows, prefix)
    ensures StartsWith(rows[i].key, prefix) <==> i < FirstForeign(rows, prefix)
  {
    hide StartsWith;
    var n := FirstForeign(rows, prefix);
    assert i < n ==> rows[..n][i] == rows[i];
  }

  /** One turn of the loop: the next row has the prefix and is added to the totals. */
  lemma TakeRow<S>(d: Digest<S>, u: Rule, rows: seq<Row>, i: nat, t: Totals)
    requires i < |rows| && AllStartWith(rows[..i], u.newPrefix) && StartsWith(rows[i].key, u.newPrefix)
    requires t == ScanTotals(d, u, rows[..i])
    ensures |u.newPrefix| <= |rows[i].key| && AllStartWith(rows[..i + 1], u.newPrefix)
    ensures var Row(k, v) := rows[i];
            Totals(ChecksumCrc64Xor(d, t.checksum, Absorb(d, d.init, u.oldPrefix), k[|u.newPrefix|..], v), t.kvs + 1,
                   t.bytes + (|k| + |v| + |u.oldPrefix| - |u.newPrefix|))
            == ScanTotals(d, u, rows[..i + 1])
  {
    hide Xor, RowDigest, ChecksumCrc64Xor, TotalsOf, RewrittenAll;
    assert forall j :: 0 <= j < i ==> rows[..i][j] == rows[..i + 1][j];
    assert rows[..i + 1][i] == rows[i];
    OneMoreRow(d, u, rows, i);
    RowIsRewritten(d, u, rows[i], t.checksum);
  }

  lemma NothingScanned<S>(d: Digest<S>, u: Rule)
    ensures AllStartWith([], u.newPrefix) && ScanTotals(d, u, []) == Totals(0, 0, 0)
  {
    assert RewrittenAll(u, []) == [];
  }

  /** The request handler: one pass over the scanned rows.  `scanError` is the number of rows
      after which the scanner fails, if it does.  The answer is the totals of the rows with
      the old prefix substituted, computed without any rule; it is an error exactly on an
      unknown algorithm, a failing scan or a row without the new prefix, whichever of the
      latter two comes first. */
  method HandleRequest<S>(d: Digest<S>, algorithm: Algorithm, rule: Option<Rule>, rows: seq<Row>, scanError: Option<nat>)
    returns (r: Result<Totals, Error>)
    ensures !algorithm.Crc64Xor? ==> r == Err(UnknownAlgorithm)
    ensures algorithm.Crc64Xor? ==>
              var u := if rule.Some? then rule.value else NO_RULE;
              var n := FirstForeign(rows, u.newPrefix);
              if scanError.Some? && scanError.value <= n then r == Err(ScanFailed)
              else if n < |rows| then r == Err(WrongPrefix)
              else AllStartWith(rows, u.newPrefix) && r == Ok(ScanTotals(d, u, rows))
  {
    hide ChecksumCrc64Xor, ScanTotals, AllStartWith, FirstForeign;
    if !algorithm.Crc64Xor? {
      return Err(UnknownAlgorithm);
    }
    var checksum: bv64, totalKvs: nat, totalBytes: nat := 0, 0, 0;
    var u := if rule.Some? then rule.value else NO_RULE;
    ghost var n := FirstForeign(rows, u.newPrefix);
    var prefixDigest := Absorb(d, d.init, u.oldPrefix);
    var i := 0;
    NothingScanned(d, u);
    while true
      invariant 0 <= i <= n && AllStartWith(rows[..i], u.newPrefix)
      invariant scanError.Some? ==> i <= scanError.value
      invariant Totals(checksum, totalKvs, totalBytes) == ScanTotals(d, u, rows[..i])
      decreases |rows| - i
    {
      if scanError == Some(i) {
        return Err(ScanFailed);
      }
      if i == |rows| {
        break;
      }
      var Row(k, v) := rows[i];
      ForeignHere(rows, u.newPrefix, i);
      if !StartsWith(k, u.newPrefix) {
        return Err(WrongPrefix);
      }
      TakeRow(d, u, rows, i, Totals(checksum, totalKvs, totalBytes));
      checksum := ChecksumCrc64Xor(d, checksum, prefixDigest, k[|u.newPrefix|..], v);
      totalKvs := totalKvs + 1;
      // The byte count of a row is computed without going below zero.
      assert |k| + |v| + |u.oldPrefix| >= |u.newPrefix|;
      totalBytes := totalBytes + (|k| + |v| + |u.oldPrefix| - |u.newPrefix|);
      i := i + 1;
    }
    assert rows[..i] == rows;
    return Ok(Totals(checksum, totalKvs, totalBytes));
  }

  // ----- the algebra of checksums

  /** Row digests can be taken out in any position. */
  lemma {:induction false} TakeOut<S>(d: Digest<S>, a: seq<Row>, r: Row, b: seq<Row>)
    ensures XorAll(d, a + [r] + b) == Xor(RowDigest(d, r), XorAll(d, a + b))
    ensures BytesAll(a + [r] + b) == |r.key| + |r.value| + BytesAll(a + b)
  {
    hide Xor, RowDigest;
    TotalsAppend(d, a + [r], b);
    TotalsAppend(d, a, [r]);
    TotalsAppend(d, a, b);
    TotalsOne(d, r);
    var x, y, z := XorAll(d, a), RowDigest(d, r), XorAll(d, b);
    XorAssociative(x, y, z);
    XorSwap(x, y, z);
  }

  /** Where the first row of `a` is in a permutation of it, and what remains of both. */
  lemma MatchFirst(a: seq<Row>, b: seq<Row>) returns (i: nat)
    requires multiset(a) == multiset(b) && a != []
    ensures i < |b| && b == b[..i] + [a[0]] + b[i + 1..]
    ensures multiset(a[1..]) == multiset(b[..i] + b[i + 1..])
  {
    var r := a[0];
    assert a == [r] + a[1..];
    assert r in multiset(b);
    i :| i < |b| && b[i] == r;
    assert b == b[..i] + [r] + b[i + 1..];
    assert multiset(a[1..]) == multiset(a) - multiset{r};
    assert multiset(b[..i] + b[i + 1..]) == multiset(b) - multiset{r};
  }

  lemma {:induction false} PermutedTotals<S>(d: Digest<S>, a: seq<Row>, b: seq<Row>)
    requires multiset(a) == multiset(b)
    ensures TotalsOf(d, a) == TotalsOf(d, b)
    decreases |a|
  {
    hide Xor, RowDigest;
    assert |multiset(a)| == |a| && |multiset(b)| == |b|;
    if a != [] {
      var i := MatchFirst(a, b);
      TakeOut(d, b[..i], a[0], b[i + 1..]);
      PermutedTotals(d, a[1..], b[..i] + b[i + 1..]);
    }
  }

  /** Rewriting works row by row. */
  lemma RewrittenAppend(rule: Rule, a: seq<Row>, b: seq<Row>)
    ensures AllStartWith(a + b, rule.newPrefix) <==> AllStartWith(a, rule.newPrefix) && AllStartWith(b, rule.newPrefix)
    ensures AllStartWith(a + b, rule.newPrefix) ==> RewrittenAll(rule, a + b) == RewrittenAll(rule, a) + RewrittenAll(rule, b)
  {
    hide StartsWith, Rewritten;
    assert forall i :: 0 <= i < |a| ==> (a + b)[i] == a[i];
    assert forall i :: 0 <= i < |b| ==> (a + b)[|a| + i] == b[i];
  }

  lemma SameRowsSamePrefixes(a: seq<Row>, b: seq<Row>, prefix: Bytes)
    requires multiset(a) == multiset(b) && AllStartWith(a, prefix)
    ensures AllStartWith(b, prefix)
  {
    forall i | 0 <= i < |b|
      ensures StartsWith(b[i].key, prefix)
    {
      assert b[i] in multiset(a);
    }
  }

  /** Rewriting keeps rows that are the same up to order the same up to order. */
  lemma {:induction false} PermutedRewrites(rule: Rule, a: seq<Row>, b: seq<Row>)
    requires multiset(a) == multiset(b)
    requires AllStartWith(a, rule.newPrefix) && AllStartWith(b, rule.newPrefix)
    ensures multiset(RewrittenAll(rule, a)) == multiset(RewrittenAll(rule, b))
    decreases |a|
  {
    hide StartsWith, Rewritten;
    assert |multiset(a)| == |a| && |multiset(b)| == |b|;
    if a != [] {
      var i := MatchFirst(a, b);
      var before, after := b[..i], b[i + 1..];
      assert a == [a[0]] + a[1..];
      RewrittenAppend(rule, [a[0]], a[1..]);
      RewrittenAppend(rule, before + [a[0]], after);
      RewrittenAppend(rule, before, [a[0]]);
      RewrittenAppend(rule, before, after);
      PermutedRewrites(rule, a[1..], before + after);
    }
  }

  /** Order independence: under any rule, the answer and whether there is one depend only on
      the multiset of rows scanned. */
  lemma {:induction false} OrderIndependent<S>(d: Digest<S>, rule: Rule, a: seq<Row>, b: seq<Row>)
    requires multiset(a) == multiset(b)
    ensures AllStartWith(a, rule.newPrefix) <==> AllStartWith(b, rule.newPrefix)
    ensures AllStartWith(a, rule.newPrefix) ==> ScanTotals(d, rule, a) == ScanTotals(d, rule, b)
  {
    if AllStartWith(a, rule.newPrefix) {
      SameRowsSamePrefixes(a, b, rule.newPrefix);
      PermutedRewrites(rule, a, b);
      PermutedTotals(d, RewrittenAll(rule, a), RewrittenAll(rule, b));
    } else if AllStartWith(b, rule.newPrefix) {
      SameRowsSamePrefixes(b, a, rule.newPrefix);
    }
  }

  /** Without a rule the rows are scanned as they are. */
  lemma NoRuleIsPlain<S>(d: Digest<S>, rows: seq<Row>)
    ensures AllStartWith(rows, NO_RULE.newPrefix) && ScanTotals(d, NO_RULE, rows) == TotalsOf(d, rows)
  {
    assert forall i :: 0 <= i < |rows| ==> StartsWith(rows[i].key, []);
    assert forall i :: 0 <= i < |rows| ==> [] + rows[i].key[0..] == rows[i].key;
    assert RewrittenAll(NO_RULE, rows) == rows;
  }

  /** Every byte counts: what is summed for a row is the old prefix, then the rest of the key, then
      the value, and nothing else. */
  lemma {:induction false} RowIsReadByByte(f: Bytes -> bv64, rule: Rule, r: Row)
    requires StartsWith(r.key, rule.newPrefix)
    ensures AllStartWith([r], rule.newPrefix)
    ensures ScanTotals(Trace(f), rule, [r]).checksum == f(rule.oldPrefix + r.key[|rule.newPrefix|..] + r.value)
  {
    hide Fold, RowDigest, XorAll;
    var w := Rewritten(rule, r);
    assert RewrittenAll(rule, [r]) == [w];
    TotalsOne(Trace(f), w);
    DigestOfTrace(f, w);
  }

  lemma DigestOfTrace(f: Bytes -> bv64, r: Row)
    ensures RowDigest(Trace(f), r) == f(r.key + r.value)
  {
    hide Fold;
    TraceRemembers(f, r.key + r.value);
  }

  /** Checksums agree exactly if they cancel. */
  lemma XorCancels(a: bv64, b: bv64)
    ensures Xor(a, b) == 0 <==> a == b
  {
    hide Xor;
    XorSelf(a);
    XorSelf(b);
    XorAssociative(a, b, b);
    XorZero(a);
    XorZero(b);
  }

  lemma XorSelf(a: bv64)
    ensures Xor(a, a) == 0
  {
  }

  /** A row scanned twice leaves no trace in the checksum; the row and byte totals show it. */
  lemma {:induction false} TwinsCancel<S>(d: Digest<S>, r: Row, rows: seq<Row>)
    ensures XorAll(d, [r, r] + rows) == XorAll(d, rows)
    ensures BytesAll([r, r] + rows) == BytesAll(rows) + 2 * (|r.key| + |r.value|)
  {
    hide Xor, RowDigest;
    TakeOut(d, [], r, [r] + rows);
    TakeOut(d, [], r, rows);
    assert [] + [r] + ([r] + rows) == [r, r] + rows && [] + ([r] + rows) == [] + [r] + rows && [] + rows == rows;
    var x, y := RowDigest(d, r), XorAll(d, rows);
    XorAssociative(x, x, y);
    XorCancels(x, x);
    XorZero(y);
  }

  function Combine(ts: seq<Totals>): Totals {
    if ts == [] then Totals(0, 0, 0)
    else
      var rest := Combine(ts[1..]);
      Totals(Xor(ts[0].checksum, rest.checksum), ts[0].kvs + rest.kvs, ts[0].bytes + rest.bytes)
  }

  function Concat(parts: seq<seq<Row>>): seq<Row> {
    if parts == [] then [] else parts[0] + Concat(parts[1..])
  }

  ghost predicate EachStartsWith(parts: seq<seq<Row>>, prefix: Bytes) {
    forall i :: 0 <= i < |parts| ==> AllStartWith(parts[i], prefix)
  }

  ghost function EachTotals<S>(d: Digest<S>, rule: Rule, parts: seq<seq<Row>>): (ts: seq<Totals>)
    requires EachStartsWith(parts, rule.newPrefix)
    ensures |ts| == |parts| && forall i :: 0 <= i < |ts| ==> ts[i] == ScanTotals(d, rule, parts[i])
  {
    seq(|parts|, i requires 0 <= i < |parts| => ScanTotals(d, rule, parts[i]))
  }

  lemma {:induction false} ConcatStartsWith(parts: seq<seq<Row>>, rule: Rule)
    ensures AllStartWith(Concat(parts), rule.newPrefix) <==> EachStartsWith(parts, rule.newPrefix)
    decreases |parts|
  {
    hide AllStartWith;
    if parts == [] {
      NoneForeign(rule.newPrefix);
    } else {
      ConcatStartsWith(parts[1..], rule);
      RewrittenAppend(rule, parts[0], Concat(parts[1..]));
      assert forall i :: 0 < i < |parts| ==> parts[i] == parts[1..][i - 1];
    }
  }

  lemma NoneForeign(prefix: Bytes)
    ensures AllStartWith([], prefix)
  {
  }

  lemma {:induction false} CombineIsConcat<S>(d: Digest<S>, rule: Rule, parts: seq<seq<Row>>)
    requires EachStartsWith(parts, rule.newPrefix) && AllStartWith(Concat(parts), rule.newPrefix)
    ensures Combine(EachTotals(d, rule, parts)) == ScanTotals(d, rule, Concat(parts))
    decreases |parts|
  {
    hide Xor, RowDigest, AllStartWith, XorAll, BytesAll;
    if parts == [] {
      assert RewrittenAll(rule, Concat(parts)) == [];
      TotalsNone(d);
    } else {
      var rest := Concat(parts[1..]);
      ConcatStartsWith(parts[1..], rule);
      RewrittenAppend(rule, parts[0], rest);
      CombineIsConcat(d, rule, parts[1..]);
      assert EachTotals(d, rule, parts)[1..] == EachTotals(d, rule, parts[1..]);
      TotalsAppend(d, RewrittenAll(rule, parts[0]), RewrittenAll(rule, rest));
    }
  }

  lemma TotalsNone<S>(d: Digest<S>)
    ensures TotalsOf(d, []) == Totals(0, 0, 0)
  {
  }

  /** Split independence: under any rule, however the rows are distributed over scans and in
      whatever order, the scans all succeed if and only if one scan over all rows does; then
      the checksums combine by exclusive or and the counts and byte totals by addition to its
      answer. */
  lemma {:induction false} SplitIndependent<S>(d: Digest<S>, rule: Rule, parts: seq<seq<Row>>, rows: seq<Row>)
    requires multiset(Concat(parts)) == multiset(rows)
    ensures EachStartsWith(parts, rule.newPrefix) <==> AllStartWith(rows, rule.newPrefix)
    ensures EachStartsWith(parts, rule.newPrefix) ==>
              Combine(EachTotals(d, rule, parts)) == ScanTotals(d, rule, rows)
  {
    hide AllStartWith, ScanTotals, EachTotals, EachStartsWith;
    ConcatStartsWith(parts, rule);
    OrderIndependent(d, rule, Concat(parts), rows);
    if EachStartsWith(parts, rule.newPrefix) {
      CombineIsConcat(d, rule, parts);
    }
  }

  /** Rewriting there and back leaves the totals unchanged: a table copied under a new prefix
      and checked with the rule has the totals of the original. */
  lemma {:induction false} CopiedTableMatches<S>(d: Digest<S>, rule: Rule, rows: seq<Row>)
    requires AllStartWith(rows, rule.oldPrefix)
    ensures var copy := RewrittenAll(Rule(rule.newPrefix, rule.oldPrefix), rows);
            && AllStartWith(copy, rule.newPrefix)
            && ScanTotals(d, rule, copy) == TotalsOf(d, rows)
  {
    var back := Rule(rule.newPrefix, rule.oldPrefix);
    var copy := RewrittenAll(back, rows);
    forall i | 0 <= i < |rows|
      ensures StartsWith(copy[i].key, rule.newPrefix) && Rewritten(rule, copy[i]) == rows[i]
    {
      assert copy[i].key[..|rule.newPrefix|] == rule.newPrefix;
      assert copy[i].key[|rule.newPrefix|..] == rows[i].key[|rule.oldPrefix|..];
      assert rule.oldPrefix + rows[i].key[|rule.oldPrefix|..] == rows[i].key;
    }
    assert RewrittenAll(rule, copy) == rows;
  }
}
