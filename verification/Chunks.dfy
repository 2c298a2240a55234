/** Country chunks on the wire: palette codes run-length encoded as (count, code) pairs.

    `Encode` is the greedy encoder; the publisher fuses it with the palette mapping in
    one pass that keeps a pending run, and the reader accepts exactly the streams that
    expand to a full chunk. */
module Chunks {
  import opened Basics

  const MAX_RUN: nat := 255

  /** How far a run of equal codes at the front reaches, from `n` codes already seen. */
  function RunFrom(codes: seq<Byte>, n: nat): (run: nat)
    requires 0 < n <= |codes| && n <= MAX_RUN && forall k :: 0 <= k < n ==> codes[k] == codes[0]
    ensures n <= run <= |codes| && run <= MAX_RUN && forall k :: 0 <= k < run ==> codes[k] == codes[0]
    ensures run == MAX_RUN || run == |codes| || codes[run] != codes[0]
    decreases |codes| - n
  {
    if n < MAX_RUN && n < |codes| && codes[n] == codes[0] then RunFrom(codes, n + 1) else n
  }

  function Encode(codes: seq<Byte>): seq<Byte>
    decreases |codes|
  {
    if codes == [] then []
    else
      var run := RunFrom(codes, 1);
      [run, codes[0]] + Encode(codes[run..])
  }

  function Repeat(code: Byte, n: nat): (codes: seq<Byte>)
    ensures |codes| == n && forall k :: 0 <= k < n ==> codes[k] == code
  {
    seq(n, _ => code)
  }

  /** What a stream of pairs stands for. */
  function Expand(bytes: seq<Byte>): seq<Byte>
    decreases |bytes|
  {
    if |bytes| < 2 then [] else Repeat(bytes[1], bytes[0]) + Expand(bytes[2..])
  }

  /** A well-formed stream for n cells: whole pairs, no empty run, exactly n codes. */
  predicate Exact(bytes: seq<Byte>, n: nat) {
    |bytes| % 2 == 0 && (forall k :: 0 <= k < |bytes| && k % 2 == 0 ==> bytes[k] != 0) && |Expand(bytes)| == n
  }

  // ----- round trip -----

  lemma {:induction false} RunStops(codes: seq<Byte>, n: nat)
    requires 0 < n < |codes| && n <= MAX_RUN && forall k :: 0 <= k < n ==> codes[k] == codes[0]
    requires n == MAX_RUN || codes[n] != codes[0]
    ensures RunFrom(codes, 1) == n
  {
    RunReaches(codes, n);
  }

  lemma PairExpands(run: Byte, code: Byte, rest: seq<Byte>)
    ensures Expand([run, code] + rest) == Repeat(code, run) + Expand(rest)
    ensures run > 0 && Exact(rest, |Expand(rest)|) ==> Exact([run, code] + rest, run + |Expand(rest)|)
  {
    var bytes := [run, code] + rest;
    assert bytes[2..] == rest;
    assert forall k :: 2 <= k < |bytes| ==> bytes[k] == rest[k - 2] && (k % 2 == 0 <==> (k - 2) % 2 == 0);
  }

  /** The first run of an encoding, and the rest of it. */
  lemma EncodeUnfolds(codes: seq<Byte>)
    requires codes != []
    ensures
      var run := RunFrom(codes, 1);
      Encode(codes) == [run, codes[0]] + Encode(codes[run..]) && codes == Repeat(codes[0], run) + codes[run..]
  {
    hide RunFrom;
    RunIsRepeat(codes);
  }

  lemma RunIsRepeat(codes: seq<Byte>)
    requires codes != []
    ensures codes == Repeat(codes[0], RunFrom(codes, 1)) + codes[RunFrom(codes, 1)..]
  {
    hide RunFrom;
  }

  lemma {:induction false} ExpandInvertsEncode(codes: seq<Byte>)
    ensures Expand(Encode(codes)) == codes
    ensures Exact(Encode(codes), |codes|)
    ensures |Encode(codes)| <= 2 * |codes|
    decreases |codes|
  {
    hide RunFrom, Repeat, Exact, Encode, Expand;
    if codes != [] {
      var run := RunFrom(codes, 1);
      var rest := codes[run..];
      EncodeUnfolds(codes);
      ExpandInvertsEncode(rest);
      PairExpands(run, codes[0], Encode(rest));
    } else {
      NothingEncoded();
    }
  }

  lemma NothingEncoded()
    ensures Encode([]) == [] && Expand([]) == [] && Exact([], 0)
  {
  }

  lemma EncodeIsInjective(a: seq<Byte>, b: seq<Byte>)
    requires Encode(a) == Encode(b)
    ensures a == b
  {
    ExpandInvertsEncode(a);
    ExpandInvertsEncode(b);
  }

  // ----- no stream is shorter -----

  lemma DropTwice(codes: seq<Byte>, a: nat, b: nat)
    requires a + b <= |codes|
    ensures codes[a..][b..] == codes[a + b..]
  {
  }

  /** Cutting codes off the front never lengthens the encoding. */
  lemma {:induction false} SuffixIsNoLonger(codes: seq<Byte>, k: nat)
    requires k <= |codes|
    ensures |Encode(codes[k..])| <= |Encode(codes)|
    decreases |codes|, k
  {
    hide RunFrom, Encode, Repeat;
    if codes == [] || k == 0 {
      assert codes[k..] == codes;
    } else {
      var run := RunFrom(codes, 1);
      var rest := codes[run..];
      EncodeUnfolds(codes);
      if k >= run {
        SuffixIsNoLonger(rest, k - run);
        DropTwice(codes, run, k - run);
      } else {
        var tail := codes[k..];
        EncodeUnfolds(tail);
        RunReaches(tail, run - k);
        var left := RunFrom(tail, 1);
        SuffixIsNoLonger(rest, left - (run - k));
        DropTwice(codes, k, left);
        DropTwice(codes, run, left - (run - k));
      }
    }
  }

  lemma {:induction false} RunReaches(codes: seq<Byte>, n: nat)
    requires 0 < n <= |codes| && n <= MAX_RUN && forall k :: 0 <= k < n ==> codes[k] == codes[0]
    ensures n <= RunFrom(codes, 1)
  {
  }

  lemma TailHasNoEmptyRun(bytes: seq<Byte>)
    requires |bytes| >= 2 && |bytes| % 2 == 0 && forall k :: 0 <= k < |bytes| && k % 2 == 0 ==> bytes[k] != 0
    ensures |bytes[2..]| % 2 == 0 && forall k :: 0 <= k < |bytes[2..]| && k % 2 == 0 ==> bytes[2..][k] != 0
  {
    forall k | 0 <= k < |bytes[2..]| && k % 2 == 0
      ensures bytes[2..][k] != 0
    {
      assert (k + 2) % 2 == 0;
      assert bytes[2..][k] == bytes[k + 2];
    }
  }

  /** The tail of an exact stream is exact. */
  lemma ExactTail(bytes: seq<Byte>)
    requires bytes != [] && Exact(bytes, |Expand(bytes)|)
    ensures |bytes| >= 2 && bytes[0] > 0 && Exact(bytes[2..], |Expand(bytes[2..])|)
    ensures Expand(bytes) == Repeat(bytes[1], bytes[0]) + Expand(bytes[2..])
  {
    TailHasNoEmptyRun(bytes);
    hide Repeat;
  }

  /** The greedy encoding is the shortest exact stream for its codes. */
  lemma {:induction false} EncodeIsShortest(bytes: seq<Byte>)
    requires Exact(bytes, |Expand(bytes)|)
    ensures |Encode(Expand(bytes))| <= |bytes|
    decreases |bytes|
  {
    hide Exact, RunFrom;
    if bytes != [] {
      hide Expand, Encode, Repeat;
      ExactTail(bytes);
      var n, rest := bytes[0], Expand(bytes[2..]);
      var codes := Expand(bytes);
      EncodeIsShortest(bytes[2..]);
      EncodeUnfolds(codes);
      RunReaches(codes, n);
      var run := RunFrom(codes, 1);
      DropBehind(Repeat(bytes[1], n), rest, run);
      SuffixIsNoLonger(rest, run - n);
    }
  }

  lemma Reassociate(a: seq<Byte>, b: seq<Byte>, c: seq<Byte>)
    ensures a + (b + c) == a + b + c
  {
  }

  lemma DropBehind(a: seq<Byte>, b: seq<Byte>, k: nat)
    requires |a| <= k <= |a| + |b|
    ensures (a + b)[k..] == b[k - |a|..]
  {
  }

  // ----- one code at a time -----

  /** A stream after one more code: the last run grows if it can. */
  function Pushed(stream: seq<Byte>, code: Byte): seq<Byte> {
    var n := |stream|;
    if n >= 2 && stream[n - 1] == code && stream[n - 2] < MAX_RUN then stream[..n - 2] + [stream[n - 2] + 1, code]
    else stream + [1, code]
  }

  lemma PushedBehind(run: Byte, first: Byte, stream: seq<Byte>, code: Byte)
    requires |stream| >= 2
    ensures Pushed([run, first] + stream, code) == [run, first] + Pushed(stream, code)
  {
    var more := [run, first] + stream;
    assert more[..|more| - 2] == [run, first] + stream[..|stream| - 2];
  }

  lemma EncodesOneRun(codes: seq<Byte>)
    requires codes != [] && RunFrom(codes, 1) == |codes|
    ensures |codes| <= MAX_RUN && Encode(codes) == [|codes|, codes[0]]
  {
    assert codes[|codes|..] == [];
  }

  lemma PushedOnOneRun(run: Byte, first: Byte, code: Byte)
    ensures Pushed([run, first], code) == if first == code && run < MAX_RUN then [run + 1, code] else [run, first] + [1, code]
  {
    assert [run, first][..0] == [];
  }

  /** A longer last run, or a new one. */
  lemma LastRunAppends(codes: seq<Byte>, code: Byte)
    requires codes != [] && RunFrom(codes, 1) == |codes|
    ensures Encode(codes + [code]) == Pushed(Encode(codes), code)
  {
    hide RunFrom, Encode, Pushed;
    var more, n := codes + [code], |codes|;
    EncodesOneRun(codes);
    PushedOnOneRun(n, codes[0], code);
    RunReaches(more, n);
    if code == codes[0] && n < MAX_RUN {
      RunReaches(more, n + 1);
      EncodesOneRun(more);
    } else {
      RunStops(more, n);
      EncodeUnfolds(more);
      assert more[n..] == [code];
      EncodesOneRun([code]);
    }
  }

  /** Greedy encoding can be done online: one pending run is all the state it needs. */
  lemma {:induction false} EncodeAppends(codes: seq<Byte>, code: Byte)
    ensures Encode(codes + [code]) == Pushed(Encode(codes), code)
    decreases |codes|
  {
    hide RunFrom, Encode;
    if codes == [] {
      EncodesOneRun([code]);
      NothingEncoded();
      assert Pushed([], code) == [1, code] && [] + [code] == [code];
    } else if RunFrom(codes, 1) == |codes| {
      LastRunAppends(codes, code);
    } else {
      var more, run := codes + [code], RunFrom(codes, 1);
      assert codes[run] == more[run];
      RunStops(more, run);
      EncodeUnfolds(codes);
      EncodeUnfolds(more);
      assert more[run..] == codes[run..] + [code];
      EncodeAppends(codes[run..], code);
      EncodesPairs(codes[run..]);
      PushedBehind(run, codes[0], Encode(codes[run..]), code);
    }
  }

  lemma EncodesPairs(codes: seq<Byte>)
    requires codes != []
    ensures |Encode(codes)| >= 2 && |Encode(codes)| % 2 == 0
  {
    ExpandInvertsEncode(codes);
  }

  // ----- the encoders and the reader, in place -----

  /** The length of the run at i. */
  method RunAt(codes: array<Byte>, i: nat) returns (run: nat)
    requires i < codes.Length
    ensures 0 < run <= MAX_RUN && i + run <= codes.Length && run == RunFrom(codes[i..], 1)
  {
    run := 1;
    while run < MAX_RUN && i + run < codes.Length && codes[i + run] == codes[i]
      invariant 1 <= run <= MAX_RUN && i + run <= codes.Length
      invariant forall k :: 0 <= k < run ==> codes[i..][k] == codes[i]
      invariant RunFrom(codes[i..], run) == RunFrom(codes[i..], 1)
    {
      run := run + 1;
    }
  }

  /** The stand-alone encoder. */
  method EncodeColorIndexes(codes: array<Byte>) returns (bytes: seq<Byte>)
    ensures bytes == Encode(codes[..])
  {
    hide RunFrom, Encode;
    var encoded := new Byte[codes.Length * 2];
    var out, i := 0, 0;
    ExpandInvertsEncode(codes[..]);
    NothingEncoded();
    assert codes[0..] == codes[..];
    ghost var done: seq<Byte> := [];
    while i < codes.Length
      invariant 0 <= i <= codes.Length && 0 <= out <= encoded.Length && fresh(encoded)
      invariant encoded[..out] == done && done + Encode(codes[i..]) == Encode(codes[..])
    {
      var run := RunAt(codes, i);
      EncodeUnfolds(codes[i..]);
      assert codes[i..][run..] == codes[i + run..];
      Reassociate(done, [run, codes[i]], Encode(codes[i + run..]));
      encoded[out], encoded[out + 1] := run, codes[i];
      out := out + 2;
      done := done + [run, codes[i]];
      i := i + run;
    }
    assert codes[codes.Length..] == [];
    return encoded[..out];
  }

  /** The one-pass encoder after i codes: what is written, and the run still pending. */
  ghost predicate Pending(codes: seq<Byte>, i: nat, encoded: array<Byte>, out: nat, run: nat, last: int)
    reads encoded
  {
    i <= |codes| && encoded.Length == 2 * |codes| && out <= encoded.Length && run <= MAX_RUN &&
    if run == 0 then i == 0 && out == 0 && last == -1
    else 0 <= last < 256 && out + 2 <= 2 * i && encoded[..out] + [run, last] == Encode(codes[..i])
  }

  /** A pending run closed by the next code, or grown by it. */
  lemma PendingRun(done: seq<Byte>, run: Byte, last: Byte, code: Byte)
    ensures Pushed(done + [run, last], code) ==
      if last == code && run < MAX_RUN then done + [run + 1, code] else done + [run, last] + [1, code]
  {
  }

  /** One code of the one-pass encoder. */
  method PushCode(ghost codes: seq<Byte>, ghost i: nat, encoded: array<Byte>, out: nat, run: nat, last: int, code: Byte)
    returns (next: nat, longer: nat, current: int)
    requires Pending(codes, i, encoded, out, run, last) && i < |codes| && code == codes[i]
    modifies encoded
    ensures Pending(codes, i + 1, encoded, next, longer, current) && longer > 0
  {
    hide Encode, Pushed;
    assert codes[..i + 1] == codes[..i] + [code];
    EncodeAppends(codes[..i], code);
    if code == last && run < MAX_RUN {
      PendingRun(encoded[..out], run, last, code);
      return out, run + 1, last;
    }
    next := out;
    if run > 0 {
      PendingRun(encoded[..out], run, last, code);
      ghost var done := encoded[..out];
      encoded[next], encoded[next + 1] := run, last;
      next := next + 2;
      assert encoded[..next] == done + [run, last];
    } else {
      FirstCode(code);
    }
    longer, current := 1, code;
  }

  lemma FirstCode(code: Byte)
    ensures Encode([]) == [] && Pushed([], code) == [1, code]
  {
  }

  /** The last pending run goes out at the end. */
  method FlushRun(ghost codes: seq<Byte>, encoded: array<Byte>, out: nat, run: nat, last: int) returns (end: nat)
    requires Pending(codes, |codes|, encoded, out, run, last)
    modifies encoded
    ensures end <= encoded.Length && encoded[..end] == Encode(codes)
  {
    assert codes[..|codes|] == codes;
    end := out;
    if run > 0 {
      ghost var done := encoded[..out];
      encoded[end], encoded[end + 1] := run, last;
      end := end + 2;
      assert encoded[..end] == done + [run, last];
    }
  }

  datatype ReadResult = Read(codes: seq<Byte>) | InvalidChunkSize

  lemma {:induction false} ExpandAppends(bytes: seq<Byte>, run: Byte, code: Byte)
    requires |bytes| % 2 == 0
    ensures Expand(bytes + [run, code]) == Expand(bytes) + Repeat(code, run)
    decreases |bytes|
  {
    if bytes == [] {
      assert Expand([run, code][2..]) == [];
    } else {
      assert (bytes + [run, code])[2..] == bytes[2..] + [run, code];
      ExpandAppends(bytes[2..], run, code);
    }
  }

  lemma {:induction false} ExpandSplits(bytes: seq<Byte>, k: nat)
    requires k <= |bytes| && k % 2 == 0
    ensures Expand(bytes) == Expand(bytes[..k]) + Expand(bytes[k..])
    decreases k
  {
    if k > 0 {
      assert bytes[2..][..k - 2] == bytes[..k][2..];
      assert bytes[2..][k - 2..] == bytes[k..];
      ExpandSplits(bytes[2..], k - 2);
    } else {
      assert bytes[k..] == bytes;
    }
  }

  /** The reader: writes past the end clamp, and only an exact stream is accepted. */
  method ReadColorIndexes(bytes: seq<Byte>, cells: nat) returns (r: ReadResult)
    ensures r == if Exact(bytes, cells) then Read(Expand(bytes)) else InvalidChunkSize
  {
    if |bytes| % 2 != 0 {
      return InvalidChunkSize;
    }
    var codes := new Byte[cells](_ => 0);
    var out, i := 0, 0;
    while i < |bytes|
      invariant 0 <= i <= |bytes| && i % 2 == 0 && fresh(codes)
      invariant out == |Expand(bytes[..i])|
      invariant forall k :: 0 <= k < i && k % 2 == 0 ==> bytes[k] != 0
      invariant forall k :: 0 <= k < cells && k < out ==> codes[k] == Expand(bytes[..i])[k]
    {
      var run := bytes[i];
      if run == 0 {
        return InvalidChunkSize;
      }
      var code := bytes[i + 1];
      assert bytes[..i + 2] == bytes[..i] + [run, code];
      ExpandAppends(bytes[..i], run, code);
      if run == 1 {
        if out < cells {
          codes[out] := code;
        }
        out := out + 1;
      } else {
        var k, end := out, if out + run < cells then out + run else cells;
        ghost var was := codes[..];
        while k < end
          invariant out <= k && (k <= end || end < out)
          invariant forall j :: 0 <= j < cells ==> codes[j] == if out <= j < k then code else was[j]
        {
          codes[k] := code;
          k := k + 1;
        }
        out := out + run;
      }
      i := i + 2;
    }
    assert bytes[..|bytes|] == bytes;
    if out != cells {
      return InvalidChunkSize;
    }
    assert codes[..] == Expand(bytes);
    return Read(codes[..]);
  }
}
