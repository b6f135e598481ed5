/** The decoder of Google's Encoded Polyline Algorithm Format
    (utils/maps.js, decodePolyline).

    Every coordinate is stored as the difference from the previous point,
    in units of 1e-5 degree; a difference is zig-zag mapped to a natural
    number, which is written as little-endian groups of 5 bits, each
    group being one character of code 63 + group, plus 32 while more
    groups follow. */
module Polyline {
  import opened Common

  /** charCodeAt(i) - 63; None stands for NaN, which charCodeAt returns
      past the end of the string. */
  function CodeAt(s: string, i: nat): Option<int>
  {
    if i < |s| then Some(s[i] as int - 63) else None
  }

  /** `b & 0x1f`: NaN converts to 0; on a 32-bit two's-complement value the
      low five bits are its Euclidean remainder modulo 32. */
  function LowBits(b: Option<int>): (g: int)
    ensures 0 <= g < 32
  {
    match b
    case None => 0
    case Some(v) => v % 32
  }

  /** `b >= 0x20`, which is false for NaN. */
  predicate HasMore(b: Option<int>)
  {
    b.Some? && b.value >= 32
  }

  /** The value of the varint that starts at position i and the position
      after its last group. */
  function ReadVarint(s: string, i: nat): (r: (int, nat))
    ensures r.0 >= 0
    ensures r.1 > i
    decreases |s| - i
  {
    var b := CodeAt(s, i);
    if HasMore(b) then
      var rest := ReadVarint(s, i + 1);
      (LowBits(b) + 32 * rest.0, rest.1)
    else
      (LowBits(b), i + 1)
  }

  /** `(r & 1) ? ~(r >> 1) : (r >> 1)` for a non-negative r. */
  function UnZigZag(r: int): int
    requires r >= 0
  {
    if r % 2 == 1 then -(r / 2) - 1 else r / 2
  }

  /** The zig-zag decoded (lat, lng) differences read from position i on. */
  function DeltasFrom(s: string, i: nat): seq<LatLng>
    decreases |s| - i
  {
    if i >= |s| then []
    else
      var dlat := ReadVarint(s, i);
      var dlng := ReadVarint(s, dlat.1);
      [LatLng(UnZigZag(dlat.0), UnZigZag(dlng.0))] + DeltasFrom(s, dlng.1)
  }

  /** Running sums of the differences, starting from `at`. */
  function Accumulate(ds: seq<LatLng>, at: LatLng): (ps: seq<LatLng>)
    ensures |ps| == |ds|
  {
    if ds == [] then []
    else
      var p := LatLng(at.lat + ds[0].lat, at.lng + ds[0].lng);
      [p] + Accumulate(ds[1..], p)
  }

  /** What decodePolyline returns; None stands for a missing argument. */
  function Decode(encoded: Option<string>): (ps: seq<LatLng>)
    ensures encoded == None || encoded == Some([]) ==> ps == []
    ensures encoded.Some? ==> 2 * |ps| <= |encoded.value| + 1
  {
    match encoded
    case None => []
    case Some(s) =>
      if s == [] then []
      else
        DeltasLength(s, 0);
        Accumulate(DeltasFrom(s, 0), LatLng(0, 0))
  }

  /** Each point consumes at least two positions (one per varint), so there
      are at most half as many points as characters, rounded up. */
  lemma {:induction false} DeltasLength(s: string, i: nat)
    ensures 2 * |DeltasFrom(s, i)| <= |s| - i + 1 || i >= |s|
    ensures i >= |s| ==> DeltasFrom(s, i) == []
    decreases |s| - i
  {
    if i < |s| {
      var dlat := ReadVarint(s, i);
      var dlng := ReadVarint(s, dlat.1);
      DeltasLength(s, dlng.1);
    }
  }

  /** One do-while loop of decodePolyline: read a varint starting at `index`. */
  method ReadChunks(encoded: string, index0: nat) returns (result: int, index: nat)
    ensures (result, index) == ReadVarint(encoded, index0)
  {
    index := index0;
    result := 0;
    var scale := 1;  // 1 << shift
    var more := true;
    ghost var total := ReadVarint(encoded, index0).0;
    while more
      invariant index >= index0
      invariant more ==> ReadVarint(encoded, index0).1 == ReadVarint(encoded, index).1
      invariant more ==> total == result + scale * ReadVarint(encoded, index).0
      invariant !more ==> ReadVarint(encoded, index0) == (result, index)
      decreases more, |encoded| - index
    {
      var b := CodeAt(encoded, index);
      var g := LowBits(b);
      ghost var before := ReadVarint(encoded, index);
      index := index + 1;
      more := HasMore(b);
      if more {
        ghost var after := ReadVarint(encoded, index);
        assert before == (g + 32 * after.0, after.1);
        ShiftIn(scale, g, after.0);
        assert total == (result + scale * g) + (scale * 32) * after.0;
      } else {
        assert before == (g, index);
      }
      // result |= (b & 0x1f) << shift: the bits at and above shift are still zero
      result := result + scale * g;
      scale := scale * 32;  // shift += 5
    }
  }

  lemma ShiftIn(scale: int, g: int, rest: int)
    ensures scale * (g + 32 * rest) == scale * g + (scale * 32) * rest
  {
  }

  /** decodePolyline, with coordinates kept in 1e-5 degree units. */
  method DecodePolyline(encoded: Option<string>) returns (coordinates: seq<LatLng>)
    ensures coordinates == Decode(encoded)
  {
    if encoded == None || encoded == Some([]) {
      return [];
    }
    var s := encoded.value;
    var index := 0;
    var len := |s|;
    var lat, lng := 0, 0;
    coordinates := [];
    while index < len
      invariant coordinates + Accumulate(DeltasFrom(s, index), LatLng(lat, lng))
                == Accumulate(DeltasFrom(s, 0), LatLng(0, 0))
      decreases len - index
    {
      ghost var at, before := index, coordinates;
      ghost var start := LatLng(lat, lng);
      var result, next := ReadChunks(s, index);
      var dlat := UnZigZag(result);
      ghost var mid, rlat := next, result;
      index := next;
      lat := lat + dlat;

      result, next := ReadChunks(s, index);
      var dlng := UnZigZag(result);
      index := next;
      lng := lng + dlng;

      DeltasFromStep(s, at, rlat, mid, result, index);
      AccumulateSplit(DeltasFrom(s, at), DeltasFrom(s, index), LatLng(dlat, dlng), start, LatLng(lat, lng));
      ghost var rest := Accumulate(DeltasFrom(s, index), LatLng(lat, lng));
      coordinates := coordinates + [LatLng(lat, lng)];
      assert coordinates + rest == before + ([LatLng(lat, lng)] + rest);
    }
  }

  /** Accumulate unfolded once. */
  lemma AccumulateHead(ds: seq<LatLng>, at: LatLng)
    requires ds != []
    ensures Accumulate(ds, at)
            == [LatLng(at.lat + ds[0].lat, at.lng + ds[0].lng)] + Accumulate(ds[1..], LatLng(at.lat + ds[0].lat, at.lng + ds[0].lng))
  {
  }

  /** Accumulate over a non-empty list: the point reached by its first
      difference, then the sums over the rest from there. */
  lemma AccumulateSplit(ds: seq<LatLng>, rest: seq<LatLng>, d: LatLng, at: LatLng, p: LatLng)
    requires ds != [] && ds[0] == d && ds[1..] == rest
    requires p == LatLng(at.lat + d.lat, at.lng + d.lng)
    ensures Accumulate(ds, at) == [p] + Accumulate(rest, p)
  {
    AccumulateHead(ds, at);
  }

  // ---------------------------------------------------------------------
  // The encoder the format defines, as the decoder's partner.

  function ZigZag(v: int): (r: nat)
  {
    if v < 0 then -2 * v - 1 else 2 * v
  }

  lemma UnZigZagOfZigZag(v: int)
    ensures UnZigZag(ZigZag(v)) == v
  {
  }

  /** The varint characters of n: 5-bit groups, least significant first,
      each plus 32 while more groups follow, plus 63. */
  function EncodeVarint(n: nat): (e: string)
    ensures |e| >= 1
    decreases n
  {
    if n < 32 then [(n + 63) as char]
    else [((n % 32) + 32 + 63) as char] + EncodeVarint(n / 32)
  }

  function EncodeDeltas(ds: seq<LatLng>): string
  {
    if ds == [] then []
    else EncodeVarint(ZigZag(ds[0].lat)) + EncodeVarint(ZigZag(ds[0].lng)) + EncodeDeltas(ds[1..])
  }

  /** Each point minus the one before it (the first minus `prev`). */
  function Differences(ps: seq<LatLng>, prev: LatLng): seq<LatLng>
  {
    if ps == [] then []
    else [LatLng(ps[0].lat - prev.lat, ps[0].lng - prev.lng)] + Differences(ps[1..], ps[0])
  }

  /** The Encoded Polyline text of a list of E5 coordinates. */
  function Encode(ps: seq<LatLng>): string
  {
    EncodeDeltas(Differences(ps, LatLng(0, 0)))
  }

  lemma {:induction false} ReadEncodedVarint(s: string, i: nat, n: nat)
    requires i + |EncodeVarint(n)| <= |s| && s[i..i + |EncodeVarint(n)|] == EncodeVarint(n)
    ensures ReadVarint(s, i) == (n, i + |EncodeVarint(n)|)
    decreases n
  {
    var e := EncodeVarint(n);
    assert s[i] == e[0];
    if n >= 32 {
      var e' := EncodeVarint(n / 32);
      assert e == [e[0]] + e';
      assert s[i + 1..i + 1 + |e'|] == e' by {
        assert s[i + 1..i + 1 + |e'|] == s[i..i + |e|][1..];
      }
      ReadEncodedVarint(s, i + 1, n / 32);
    }
  }

  /** Two encoded varints at position i are read back, and the text after
      them is what follows. */
  lemma ReadPair(s: string, i: nat, m: nat, n: nat, rest: string)
    requires i <= |s| && s[i..] == EncodeVarint(m) + EncodeVarint(n) + rest
    ensures i < |s|
    ensures ReadVarint(s, i) == (m, i + |EncodeVarint(m)|)
    ensures ReadVarint(s, i + |EncodeVarint(m)|) == (n, i + |EncodeVarint(m)| + |EncodeVarint(n)|)
    ensures s[i + |EncodeVarint(m)| + |EncodeVarint(n)|..] == rest
  {
    var a, b := EncodeVarint(m), EncodeVarint(n);
    SliceThree(s, i, a, b, rest);
    ReadEncodedVarint(s, i, m);
    ReadEncodedVarint(s, i + |a|, n);
  }

  /** The pieces of a text that is three parts from position i on. */
  lemma SliceThree(s: string, i: nat, a: string, b: string, rest: string)
    requires i <= |s| && s[i..] == a + b + rest
    ensures i + |a| + |b| <= |s|
    ensures s[i..i + |a|] == a
    ensures s[i + |a|..i + |a| + |b|] == b
    ensures s[i + |a| + |b|..] == rest
  {
    assert s[i..i + |a|] == s[i..][..|a|];
    assert s[i + |a|..i + |a| + |b|] == s[i..][|a|..|a| + |b|];
    assert s[i + |a| + |b|..] == s[i..][|a| + |b|..];
  }

  /** DeltasFrom unfolded once, given the two varints read at i. */
  lemma DeltasFromStep(s: string, i: nat, x: int, j: nat, y: int, k: nat)
    requires i < |s| && x >= 0 && y >= 0
    requires ReadVarint(s, i) == (x, j) && ReadVarint(s, j) == (y, k)
    ensures DeltasFrom(s, i) == [LatLng(UnZigZag(x), UnZigZag(y))] + DeltasFrom(s, k)
    ensures DeltasFrom(s, i) != [] && DeltasFrom(s, i)[0] == LatLng(UnZigZag(x), UnZigZag(y))
            && DeltasFrom(s, i)[1..] == DeltasFrom(s, k)
  {
  }

  /** Zig-zag decoding undoes the encoding of both coordinates. */
  lemma UnZigZagPoint(d: LatLng)
    ensures LatLng(UnZigZag(ZigZag(d.lat)), UnZigZag(ZigZag(d.lng))) == d
  {
    UnZigZagOfZigZag(d.lat);
    UnZigZagOfZigZag(d.lng);
  }

  /** Reading the encoding of ds at i yields its first difference, and
      reading goes on at k, where the encoding of the rest starts. */
  lemma DeltasHead(s: string, i: nat, ds: seq<LatLng>) returns (k: nat)
    requires ds != [] && i <= |s| && s[i..] == EncodeDeltas(ds)
    ensures i < k <= |s| && s[k..] == EncodeDeltas(ds[1..])
    ensures DeltasFrom(s, i) == [ds[0]] + DeltasFrom(s, k)
  {
    var d := ds[0];
    UnZigZagPoint(d);
    var m, n := ZigZag(d.lat), ZigZag(d.lng);
    var rest := EncodeDeltas(ds[1..]);
    assert s[i..] == EncodeVarint(m) + EncodeVarint(n) + rest;
    ReadPair(s, i, m, n, rest);
    var j := i + |EncodeVarint(m)|;
    k := j + |EncodeVarint(n)|;
    DeltasFromStep(s, i, m, j, n, k);
  }

  lemma {:induction false} DeltasOfEncoding(s: string, i: nat, ds: seq<LatLng>)
    requires i <= |s| && s[i..] == EncodeDeltas(ds)
    ensures DeltasFrom(s, i) == ds
    decreases |ds|
  {
    if ds != [] {
      var k := DeltasHead(s, i, ds);
      DeltasOfEncoding(s, k, ds[1..]);
      assert ds == [ds[0]] + ds[1..];
    } else {
      assert s[i..] == [];
    }
  }

  lemma {:induction false} AccumulateDifferences(ps: seq<LatLng>, prev: LatLng)
    ensures Accumulate(Differences(ps, prev), prev) == ps
    decreases |ps|
  {
    if ps != [] {
      AccumulateDifferences(ps[1..], ps[0]);
    }
  }

  /** Decoding the encoding of any list of E5 coordinates gives that list. */
  lemma DecodeEncode(ps: seq<LatLng>)
    ensures Decode(Some(Encode(ps))) == ps
  {
    var s := Encode(ps);
    DeltasOfEncoding(s, 0, Differences(ps, LatLng(0, 0)));
    AccumulateDifferences(ps, LatLng(0, 0));
  }

  // ---------------------------------------------------------------------
  // Output point k is the running sum of the first k + 1 differences.

  function SumLat(ds: seq<LatLng>): int
  {
    if ds == [] then 0 else ds[0].lat + SumLat(ds[1..])
  }

  function SumLng(ds: seq<LatLng>): int
  {
    if ds == [] then 0 else ds[0].lng + SumLng(ds[1..])
  }

  lemma {:induction false} AccumulateAt(ds: seq<LatLng>, at: LatLng, k: nat)
    requires k < |ds|
    ensures Accumulate(ds, at)[k] == LatLng(at.lat + SumLat(ds[..k + 1]), at.lng + SumLng(ds[..k + 1]))
    decreases k
  {
    var p := LatLng(at.lat + ds[0].lat, at.lng + ds[0].lng);
    assert ds[..k + 1][1..] == ds[1..][..k];
    if k > 0 {
      AccumulateAt(ds[1..], p, k - 1);
    }
  }

  /** Point k of the decoded list is the sum of the first k + 1 latitude
      differences and of the first k + 1 longitude differences, each read
      latitude first. */
  lemma DecodedPointIsPrefixSum(s: string, k: nat)
    requires s != [] && k < |Decode(Some(s))|
    ensures Decode(Some(s))[k]
            == LatLng(SumLat(DeltasFrom(s, 0)[..k + 1]), SumLng(DeltasFrom(s, 0)[..k + 1]))
  {
    AccumulateAt(DeltasFrom(s, 0), LatLng(0, 0), k);
  }
}
