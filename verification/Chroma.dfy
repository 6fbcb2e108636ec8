/** YUV 4:2:0 frames: the pointer-stepping conversion loops against the closed form. */
module Chroma {

  type Byte = bv8

  /** Pixel arithmetic, left open: any function of a luma byte and two chroma bytes. */
  type Pixel<!P> = (Byte, Byte, Byte) -> P

  // ---------- the closed form ----------

  function Area(w: nat, h: nat): nat { w * h }

  /** The pixels a row takes in the output: the loop writes them in pairs. */
  function Stride(width: nat): (w: nat)
    ensures w % 2 == 0 && width <= w <= width + 1
  {
    width + width % 2
  }

  /** The first chroma sample of row `y`: the planes have half the stride and half the rows. */
  function ChromaRow(y: nat, w: nat): nat { (y / 2) * (w / 2) }

  /** The chroma samples that `h` rows use. */
  function Samples(w: nat, h: nat): nat { ChromaRow(h + 1, w) }

  function RowOf(k: nat, w: nat): nat
    requires w > 0
  {
    k / w
  }

  function ColumnOf(k: nat, w: nat): nat
    requires w > 0
  {
    k % w
  }

  /** The chroma sample of the `k`-th pixel. */
  function SampleOf(k: nat, w: nat): nat
    requires w > 0
  {
    ChromaRow(RowOf(k, w), w) + ColumnOf(k, w) / 2
  }

  /** How far `c` samples lie apart. */
  function Moved(d: nat, c: nat): nat { d * c }

  /** Everything the loop reads lies in the frame. */
  predicate Readable(size: nat, y: nat, u: nat, v: nat, d: nat, w: nat, h: nat) {
    && y + Area(w, h) <= size
    && (forall c :: 0 <= c < Samples(w, h) ==> u + Moved(d, c) < size && v + Moved(d, c) < size)
  }

  lemma Times(a: int, b: int, w: nat)
    requires a <= b
    ensures a * w <= b * w
  {
  }

  lemma Unique(q: int, r: nat, y: int, x: nat, w: nat)
    requires r < w && x < w && q * w + r == y * w + x
    ensures q == y && r == x
  {
    if q < y { Times(q + 1, y, w); }
    if q > y { Times(y + 1, q, w); }
  }

  /** Pixel (x, y) takes the chroma sample at row y / 2 and column x / 2. */
  lemma SampleAt(x: nat, y: nat, w: nat)
    requires x < w
    ensures SampleOf(Area(y, w) + x, w) == ChromaRow(y, w) + x / 2
  {
    var k := y * w + x;
    Unique(k / w, k % w, y, x, w);
  }

  lemma SampleInRange(x: nat, y: nat, w: nat, h: nat)
    requires x < w && y < h && w % 2 == 0
    ensures ChromaRow(y, w) + x / 2 < Samples(w, h)
  {
    Times(y / 2 + 1, (h + 1) / 2, w / 2);
    Successor(y / 2, w / 2);
  }

  lemma Successor(a: nat, b: nat)
    ensures (a + 1) * b == a * b + b
  {
  }

  lemma PixelInRange(k: nat, w: nat, h: nat)
    requires k < Area(w, h)
    ensures w > 0 && RowOf(k, w) < h && ColumnOf(k, w) < w
  {
    var q, r := k / w, k % w;
    assert k == q * w + r;
    if q >= h { Times(h, q, w); }
  }

  lemma SampleOfInRange(k: nat, w: nat, h: nat)
    requires k < Area(w, h) && w % 2 == 0
    ensures w > 0 && SampleOf(k, w) < Samples(w, h)
  {
    hide Area, ChromaRow, Samples, RowOf, ColumnOf;
    PixelInRange(k, w, h);
    SampleInRange(ColumnOf(k, w), RowOf(k, w), w, h);
  }

  /** Pixel `k` of the picture whose planes start at these three places of the frame. */
  function At<P>(f: Pixel<P>, frame: seq<Byte>, y: nat, u: nat, v: nat, d: nat, w: nat, h: nat, k: nat): P
    requires w % 2 == 0 && Readable(|frame|, y, u, v, d, w, h) && k < Area(w, h)
  {
    SampleOfInRange(k, w, h);
    var c := SampleOf(k, w);
    f(frame[y + k], frame[u + Moved(d, c)], frame[v + Moved(d, c)])
  }

  // ---------- the loop ----------

  /** The pixels written so far. */
  ghost predicate Done<P>(f: Pixel<P>, frame: seq<Byte>, y: nat, u: nat, v: nat, d: nat, w: nat, h: nat, out: seq<P>)
    requires w % 2 == 0 && Readable(|frame|, y, u, v, d, w, h)
  {
    |out| <= Area(w, h) && forall k :: 0 <= k < |out| ==> out[k] == At(f, frame, y, u, v, d, w, h, k)
  }

  /** _YUV420SToRGB32 and _YUV420SToRGB565, for any width and height; an odd width makes every row one
      pixel longer. */
  method Convert<P>(f: Pixel<P>, frame: seq<Byte>, Y0: nat, U0: nat, V0: nat, dUV: nat, rgb: array<P>, width: nat,
          height: nat)
    requires Readable(|frame|, Y0, U0, V0, dUV, Stride(width), height) && Area(Stride(width), height) <= rgb.Length
    modifies rgb
    ensures forall k :: 0 <= k < Area(Stride(width), height) ==>
              rgb[k] == At(f, frame, Y0, U0, V0, dUV, Stride(width), height, k)
    ensures rgb[Area(Stride(width), height)..] == old(rgb[Area(Stride(width), height)..])
  {
    hide Readable, Area, ChromaRow, Moved, At, Done, Samples, Stride;
    ghost var w := Stride(width);
    ghost var n := Area(w, height);
    var Y, U, V := Y0, U0, V0;
    var U_pos, V_pos := U, V;
    var i := 0;
    var y := 0;
    FirstRow(f, frame, Y0, U0, V0, dUV, w, height, rgb[..i]);
    while y < height
      invariant 0 <= y <= height && i == Area(y, w) <= n && Y == Y0 + i
      invariant U == U_pos == U0 + Moved(dUV, ChromaRow(y, w)) && V == V_pos == V0 + Moved(dUV, ChromaRow(y, w))
      invariant Done(f, frame, Y0, U0, V0, dUV, w, height, rgb[..i])
      invariant rgb[n..] == old(rgb[n..])
    {
      var x := 0;
      RowFits(y, w, height);
      while x < width
        invariant 0 <= x <= w && x % 2 == 0 && i == Area(y, w) + x <= n && Y == Y0 + i
        invariant U == U0 + Moved(dUV, ChromaRow(y, w) + x / 2) && V == V0 + Moved(dUV, ChromaRow(y, w) + x / 2)
        invariant U_pos == U0 + Moved(dUV, ChromaRow(y, w)) && V_pos == V0 + Moved(dUV, ChromaRow(y, w))
        invariant Done(f, frame, Y0, U0, V0, dUV, w, height, rgb[..i])
        invariant rgb[n..] == old(rgb[n..])
      {
        PixelPair(f, frame, Y0, U0, V0, dUV, w, height, x, y, rgb[..i]);
        ghost var done := rgb[..i];
        var nU, nV := frame[U], frame[V];
        rgb[i] := f(frame[Y], nU, nV);
        Y, i := Y + 1, i + 1;
        rgb[i] := f(frame[Y], nU, nV);
        Y, i := Y + 1, i + 1;
        assert rgb[..i] == done + [f(frame[Y - 2], nU, nV), f(frame[Y - 1], nU, nV)];
        x, U, V := x + 2, U + dUV, V + dUV;
      }
      NextRow(y, w, dUV);
      if y % 2 == 1 {
        U_pos, V_pos := U, V;
      } else {
        U, V := U_pos, V_pos;
      }
      y := y + 1;
    }
    AllDone(f, frame, Y0, U0, V0, dUV, w, height, rgb[..i]);
    assert forall k :: 0 <= k < n ==> rgb[k] == rgb[..i][k];
  }

  lemma FirstRow<P>(f: Pixel<P>, frame: seq<Byte>, y: nat, u: nat, v: nat, d: nat, w: nat, h: nat, out: seq<P>)
    requires w % 2 == 0 && Readable(|frame|, y, u, v, d, w, h) && out == []
    ensures Area(0, w) == Moved(d, ChromaRow(0, w)) == 0 && Done(f, frame, y, u, v, d, w, h, out)
  {
  }

  lemma RowFits(y: nat, w: nat, h: nat)
    requires y < h
    ensures Area(y, w) + w == Area(y + 1, w) <= Area(w, h)
  {
    Successor(y, w);
    Times(y + 1, h, w);
  }

  lemma NextRow(y: nat, w: nat, d: nat)
    ensures Area(y + 1, w) == Area(y, w) + w
    ensures ChromaRow(y + 1, w) == ChromaRow(y, w) + if y % 2 == 1 then w / 2 else 0
  {
    Successor(y, w);
    Successor(y / 2, w / 2);
  }

  /** One pass of the inner loop. */
  lemma PixelPair<P>(f: Pixel<P>, frame: seq<Byte>, Y0: nat, U0: nat, V0: nat, d: nat, w: nat, h: nat, x: nat,
          y: nat, out: seq<P>)
    requires w % 2 == 0 && Readable(|frame|, Y0, U0, V0, d, w, h) && Done(f, frame, Y0, U0, V0, d, w, h, out)
    requires x < w && x % 2 == 0 && y < h && |out| == Area(y, w) + x
    ensures var i, m := Area(y, w) + x, Moved(d, ChromaRow(y, w) + x / 2);
            && i + 2 <= Area(w, h) && Y0 + i + 1 < |frame| && U0 + m < |frame| && V0 + m < |frame|
            && Moved(d, ChromaRow(y, w) + (x + 2) / 2) == m + d
            && var nU, nV := frame[U0 + m], frame[V0 + m];
               Done(f, frame, Y0, U0, V0, d, w, h, out + [f(frame[Y0 + i], nU, nV), f(frame[Y0 + i + 1], nU, nV)])
  {
    hide Readable, Area, ChromaRow, Moved, At, Done, Samples;
    OnePixel(f, frame, Y0, U0, V0, d, w, h, x, y);
    OnePixel(f, frame, Y0, U0, V0, d, w, h, x + 1, y);
    StepOver(ChromaRow(y, w) + x / 2, d);
    var i := Area(y, w) + x;
    var p, q := At(f, frame, Y0, U0, V0, d, w, h, i), At(f, frame, Y0, U0, V0, d, w, h, i + 1);
    OneMore(f, frame, Y0, U0, V0, d, w, h, out);
    OneMore(f, frame, Y0, U0, V0, d, w, h, out + [p]);
    assert out + [p] + [q] == out + [p, q];
  }

  lemma StepOver(c: nat, d: nat)
    ensures Moved(d, c + 1) == Moved(d, c) + d
  {
    Successor(c, d);
  }

  /** The closed form in terms of row and column. */
  lemma OnePixel<P>(f: Pixel<P>, frame: seq<Byte>, Y0: nat, U0: nat, V0: nat, d: nat, w: nat, h: nat, x: nat, y: nat)
    requires w % 2 == 0 && Readable(|frame|, Y0, U0, V0, d, w, h) && x < w && y < h
    ensures var i, m := Area(y, w) + x, Moved(d, ChromaRow(y, w) + x / 2);
            && i < Area(w, h) && Y0 + i < |frame| && U0 + m < |frame| && V0 + m < |frame|
            && At(f, frame, Y0, U0, V0, d, w, h, i) == f(frame[Y0 + i], frame[U0 + m], frame[V0 + m])
  {
    RowFits(y, w, h);
    SampleAt(x, y, w);
    SampleInRange(x, y, w, h);
    hide Area, ChromaRow, SampleOf, Samples, Moved;
  }

  lemma OneMore<P>(f: Pixel<P>, frame: seq<Byte>, y: nat, u: nat, v: nat, d: nat, w: nat, h: nat, out: seq<P>)
    requires w % 2 == 0 && Readable(|frame|, y, u, v, d, w, h) && Done(f, frame, y, u, v, d, w, h, out)
    requires |out| < Area(w, h)
    ensures Done(f, frame, y, u, v, d, w, h, out + [At(f, frame, y, u, v, d, w, h, |out|)])
  {
    hide Area, At, Readable;
  }

  lemma AllDone<P>(f: Pixel<P>, frame: seq<Byte>, y: nat, u: nat, v: nat, d: nat, w: nat, h: nat, out: seq<P>)
    requires w % 2 == 0 && Readable(|frame|, y, u, v, d, w, h) && Done(f, frame, y, u, v, d, w, h, out)
    requires |out| == Area(h, w)
    ensures |out| == Area(w, h) && forall k :: 0 <= k < Area(w, h) ==> out[k] == At(f, frame, y, u, v, d, w, h, k)
  {
  }

  // ---------- the layouts ----------

  datatype Image = Image(luma: seq<Byte>, cb: seq<Byte>, cr: seq<Byte>)

  predicate WellSized(img: Image, w: nat, h: nat) {
    w % 2 == 0 && h % 2 == 0 && |img.luma| == Area(w, h) && |img.cb| == |img.cr| == Samples(w, h)
  }

  function Interleaved(a: seq<Byte>, b: seq<Byte>): (r: seq<Byte>)
    requires |a| == |b|
    ensures |r| == 2 * |a| && forall c :: 0 <= c < |a| ==> r[2 * c] == a[c] && r[2 * c + 1] == b[c]
  {
    if a == [] then [] else [a[0], b[0]] + Interleaved(a[1..], b[1..])
  }

  datatype Layout = YU12 | YV12 | NV12 | NV21

  function Stored(l: Layout, img: Image): seq<Byte>
    requires |img.cb| == |img.cr|
  {
    img.luma +
    match l
    case YU12 => img.cb + img.cr
    case YV12 => img.cr + img.cb
    case NV12 => Interleaved(img.cb, img.cr)
    case NV21 => Interleaved(img.cr, img.cb)
  }

  /** Pixel `k` of the image itself, whatever frame holds it. */
  function Rendered<P>(f: Pixel<P>, img: Image, w: nat, h: nat, k: nat): P
    requires WellSized(img, w, h) && k < Area(w, h)
  {
    SampleOfInRange(k, w, h);
    f(img.luma[k], img.cb[SampleOf(k, w)], img.cr[SampleOf(k, w)])
  }

  /** The entry points reckon a plane as a quarter of the pixels. */
  lemma Quarter(w: nat, h: nat)
    requires w % 2 == 0 && h % 2 == 0
    ensures Area(w, h) / 4 == Samples(w, h)
  {
    Halved(w / 2, h / 2);
    assert (h + 1) / 2 == h / 2;
  }

  lemma Halved(a: nat, b: nat)
    ensures (2 * a) * (2 * b) == 4 * (a * b)
  {
  }

  /** Every frame of the right size is some image in any of the layouts. */
  lemma EveryFrameIsAnImage(l: Layout, frame: seq<Byte>, w: nat, h: nat) returns (img: Image)
    requires w % 2 == 0 && h % 2 == 0 && |frame| == Area(w, h) + 2 * Samples(w, h)
    ensures WellSized(img, w, h) && frame == Stored(l, img)
  {
    img := Taken(l, frame, Area(w, h), Samples(w, h));
  }

  lemma Taken(l: Layout, frame: seq<Byte>, n: nat, q: nat) returns (img: Image)
    requires |frame| == n + 2 * q
    ensures |img.luma| == n && |img.cb| == |img.cr| == q && frame == Stored(l, img)
  {
    hide Interleaved;
    var luma, chroma := frame[..n], frame[n..];
    assert frame == luma + chroma;
    if StepOf(l) == 1 {
      var a, b := chroma[..q], chroma[q..];
      assert chroma == a + b;
      img := if l == YU12 then Image(luma, a, b) else Image(luma, b, a);
    } else {
      var a, b := Unzipped(chroma);
      img := if l == NV12 then Image(luma, a, b) else Image(luma, b, a);
    }
  }

  lemma {:induction false} Unzipped(s: seq<Byte>) returns (even: seq<Byte>, odd: seq<Byte>)
    requires |s| % 2 == 0
    ensures |even| == |odd| == |s| / 2 && Interleaved(even, odd) == s
  {
    if s == [] { return [], []; }
    var e, o := Unzipped(s[2..]);
    even, odd := [s[0]] + e, [s[1]] + o;
    assert even[1..] == e && odd[1..] == o;
    assert s == [s[0], s[1]] + s[2..];
  }

  function UPlace(l: Layout, n: nat): nat {
    match l case YU12 => n case YV12 => n + n / 4 case NV12 => n case NV21 => n + 1
  }

  function VPlace(l: Layout, n: nat): nat {
    match l case YU12 => n + n / 4 case YV12 => n case NV12 => n + 1 case NV21 => n
  }

  function StepOf(l: Layout): nat {
    if l.YU12? || l.YV12? then 1 else 2
  }

  /** A frame read with its own layout's places is readable and shows the image. */
  lemma ShowsImage<P>(f: Pixel<P>, l: Layout, img: Image, w: nat, h: nat)
    requires WellSized(img, w, h)
    ensures var n := Area(w, h);
            && Readable(|Stored(l, img)|, 0, UPlace(l, n), VPlace(l, n), StepOf(l), w, h)
            && forall k :: 0 <= k < n ==>
                 At(f, Stored(l, img), 0, UPlace(l, n), VPlace(l, n), StepOf(l), w, h, k) == Rendered(f, img, w, h, k)
  {
    hide Area, Samples, Stored, At, Rendered, Moved;
    Quarter(w, h);
    var n, frame := Area(w, h), Stored(l, img);
    forall c | 0 <= c < Samples(w, h)
      ensures UPlace(l, n) + Moved(StepOf(l), c) < |frame| && VPlace(l, n) + Moved(StepOf(l), c) < |frame|
    {
      ChromaPlaces(l, img, n, c);
    }
    LumaPlaces(l, img);
    forall k | 0 <= k < n
      ensures At(f, frame, 0, UPlace(l, n), VPlace(l, n), StepOf(l), w, h, k) == Rendered(f, img, w, h, k)
    {
      ShowsPixel(f, l, img, w, h, k);
    }
  }

  lemma LumaPlaces(l: Layout, img: Image)
    requires |img.cb| == |img.cr|
    ensures |img.luma| <= |Stored(l, img)| && Stored(l, img)[..|img.luma|] == img.luma
  {
  }

  lemma ShowsPixel<P>(f: Pixel<P>, l: Layout, img: Image, w: nat, h: nat, k: nat)
    requires WellSized(img, w, h) && k < Area(w, h)
    requires Readable(|Stored(l, img)|, 0, UPlace(l, Area(w, h)), VPlace(l, Area(w, h)), StepOf(l), w, h)
    ensures var n := Area(w, h);
            At(f, Stored(l, img), 0, UPlace(l, n), VPlace(l, n), StepOf(l), w, h, k) == Rendered(f, img, w, h, k)
  {
    hide Area, Samples, Stored, SampleOf, Moved, Readable, UPlace, VPlace, StepOf;
    Quarter(w, h);
    SampleOfInRange(k, w, h);
    ChromaPlaces(l, img, Area(w, h), SampleOf(k, w));
    LumaPlaces(l, img);
    assert Stored(l, img)[k] == Stored(l, img)[..|img.luma|][k];
  }

  lemma ChromaPlaces(l: Layout, img: Image, n: nat, c: nat)
    requires |img.luma| == n && |img.cb| == |img.cr| == n / 4 && c < n / 4
    ensures var frame, u, v := Stored(l, img), UPlace(l, n) + Moved(StepOf(l), c), VPlace(l, n) + Moved(StepOf(l), c);
            u < |frame| && v < |frame| && frame[u] == img.cb[c] && frame[v] == img.cr[c]
  {
  }

  // ---------- the entry points ----------

  /** The width and height a frame is converted with fit it exactly when both are even, or, for planar
      frames two pixels wide, when the height is odd and the two planes share their last byte. */
  lemma SizesThatFit(l: Layout, w: nat, h: nat)
    requires w > 0 && h > 0
    ensures var n := Area(w, h);
            (Area(Stride(w), h) <= n && Readable(n * 3 / 2, 0, UPlace(l, n), VPlace(l, n), StepOf(l), Stride(w), h))
            <==> w % 2 == 0 && (h % 2 == 0 || (w == 2 && StepOf(l) == 1))
  {
    if w % 2 == 1 {
      Successor(w, h);
    } else {
      EvenWidth(l, w, h);
    }
  }

  lemma EvenWidth(l: Layout, w: nat, h: nat)
    requires w > 0 && h > 0 && w % 2 == 0
    ensures var n := Area(w, h);
            Readable(n * 3 / 2, 0, UPlace(l, n), VPlace(l, n), StepOf(l), w, h)
            <==> h % 2 == 0 || (w == 2 && StepOf(l) == 1)
  {
    var n, q := Area(w, h), Samples(w, h);
    Sizes(w, h);
    LastSample(n * 3 / 2, UPlace(l, n), VPlace(l, n), StepOf(l), w, h);
    assert Moved(StepOf(l), q - 1) == StepOf(l) * (q - 1);
    hide Area, Samples, Moved, Readable;
  }

  /** Only the last sample can lie outside. */
  lemma LastSample(size: nat, u: nat, v: nat, d: nat, w: nat, h: nat)
    requires Samples(w, h) > 0 && Area(w, h) <= size
    ensures Readable(size, 0, u, v, d, w, h)
       <==> u + Moved(d, Samples(w, h) - 1) < size && v + Moved(d, Samples(w, h) - 1) < size
  {
    hide Area, Samples, Moved;
    forall c | 0 <= c < Samples(w, h)
      ensures Moved(d, c) <= Moved(d, Samples(w, h) - 1)
    {
      MovedUpTo(d, c, Samples(w, h) - 1);
    }
  }

  lemma MovedUpTo(d: nat, a: nat, b: nat)
    requires a <= b
    ensures Moved(d, a) <= Moved(d, b)
  {
    Times(a, b, d);
  }

  lemma Sizes(w: nat, h: nat)
    requires w > 0 && h > 0 && w % 2 == 0
    ensures Area(w, h) == 2 * ((w / 2) * h) && Samples(w, h) > 0
    ensures 2 * Samples(w, h) == (w / 2) * h + if h % 2 == 0 then 0 else w / 2
  {
    var a, b := w / 2, (h + 1) / 2;
    assert (2 * a) * h == 2 * (a * h);
    assert a * (2 * b) == 2 * (a * b);
    if h % 2 == 1 { Successor(h, a); }
    Times(1, b, a);
  }

  /** YU12ToRGB32, YV12ToRGB32, NV12ToRGB32, NV21ToRGB32 and, with another `f`, NV12ToRGB565 and NV21ToRGB565:
      each reckons its plane offsets, and the same image stored in any of the four layouts gives the
      same picture. */
  method ToRGB<P>(f: Pixel<P>, l: Layout, frame: seq<Byte>, rgb: array<P>, width: nat, height: nat, ghost img: Image)
    requires WellSized(img, width, height) && frame == Stored(l, img) && rgb.Length == Area(width, height)
    modifies rgb
    ensures forall k :: 0 <= k < Area(width, height) ==> rgb[k] == Rendered(f, img, width, height, k)
  {
    hide Area, Stored, Readable, At, Rendered, Samples, WellSized;
    EvenStride(width, height, img);
    ShowsImage(f, l, img, width, height);
    var pix_total := Area(width, height);
    match l {
      case YU12 =>
        var U := pix_total;
        var V := U + pix_total / 4;
        Convert(f, frame, 0, U, V, 1, rgb, width, height);
      case YV12 =>
        var V := pix_total;
        var U := V + pix_total / 4;
        Convert(f, frame, 0, U, V, 1, rgb, width, height);
      case NV12 =>
        Convert(f, frame, 0, pix_total, pix_total + 1, 2, rgb, width, height);
      case NV21 =>
        Convert(f, frame, 0, pix_total + 1, pix_total, 2, rgb, width, height);
    }
  }

  lemma EvenStride(w: nat, h: nat, img: Image)
    requires WellSized(img, w, h)
    ensures Stride(w) == w && |img.cb| == |img.cr|
  {
  }

  /** YV12ToRGB565 places the planes as in YU12, so a YV12 frame is shown with its two chroma planes
      exchanged. */
  method YV12ToRGB565<P>(f: Pixel<P>, frame: seq<Byte>, rgb: array<P>, width: nat, height: nat, ghost img: Image)
    requires WellSized(img, width, height) && frame == Stored(YV12, img) && rgb.Length == Area(width, height)
    modifies rgb
    ensures var swapped := Image(img.luma, img.cr, img.cb);
            forall k :: 0 <= k < Area(width, height) ==> rgb[k] == Rendered(f, swapped, width, height, k)
  {
    hide Area, Readable, At, Rendered, Samples;
    ghost var swapped := Image(img.luma, img.cr, img.cb);
    assert frame == Stored(YU12, swapped);
    ShowsImage(f, YU12, swapped, width, height);
    var pix_total := Area(width, height);
    var U := pix_total;
    var V := U + pix_total / 4;
    Convert(f, frame, 0, U, V, 1, rgb, width, height);
  }
}
