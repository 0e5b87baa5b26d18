/** The texture list: each line of the texlist index names a texture between
    its first and last comma; the texture is loaded from the index's
    directory, checked for transparency, and given three mirrored copies
    (mirrored in u, in v, and in both) that the emitter picks from when a
    material asks for flipped texture coordinates. Images are held as
    two-dimensional arrays of RGBA pixels, row y and column x, which is the
    layout of the 4-bytes-per-pixel buffers the loader returns. */
module Texlist {
  import opened Types
  import opened Salvl

  /** One RGBA pixel: the four bytes a memcpy of 4 moves. */
  datatype Pixel = Pixel(r: byte, g: byte, b: byte, a: byte)

  /** A decoded image: width, height and the pixel at row y, column x. */
  datatype Image = Image(w: nat, h: nat, pixel: (nat, nat) -> Pixel)

  /** The largest value of size_t plus one, in a 64-bit build. */
  const SizeRange: int := 0x1_0000_0000_0000_0000

  /** find_first_of: the first position holding a character of `cs`. */
  function FirstOf(s: string, cs: set<char>): (r: Option<nat>)
    ensures r.Some? ==> r.value < |s| && s[r.value] in cs && forall k :: 0 <= k < r.value ==> s[k] !in cs
    ensures r.None? ==> forall k :: 0 <= k < |s| ==> s[k] !in cs
  {
    if s == [] then None
    else if s[0] in cs then Some(0)
    else match FirstOf(s[1..], cs)
      case None => None
      case Some(k) => Some(k + 1)
  }

  /** find_last_of: the last position holding a character of `cs`. */
  function LastOf(s: string, cs: set<char>): (r: Option<nat>)
    ensures r.Some? ==> r.value < |s| && s[r.value] in cs && forall k :: r.value < k < |s| ==> s[k] !in cs
    ensures r.None? ==> forall k :: 0 <= k < |s| ==> s[k] !in cs
  {
    if s == [] then None
    else if s[|s| - 1] in cs then Some(|s| - 1)
    else LastOf(s[..|s| - 1], cs)
  }

  /** substr(pos, n): at most n characters from pos. */
  function Substr(s: string, pos: nat, n: nat): string
    requires pos <= |s|
  {
    s[pos .. if pos + n < |s| then pos + n else |s|]
  }

  /** The texture name of a line: the text between the first and the last
      comma, or None when the line has no comma. The length
      `(end - start) - 1` is an unsigned size_t, so with a single comma it
      wraps to the largest size_t and the name runs to the end of the line. */
  function LineName(line: string): Option<string>
  {
    var first := FirstOf(line, {','});
    var last := LastOf(line, {','});
    if first.None? || last.None? then None
    else Some(Substr(line, first.value + 1, (last.value - first.value - 1) % SizeRange))
  }

  /** A line without a comma names nothing, and a line with one does name something. */
  lemma LineNameNone(line: string)
    ensures LineName(line).None? <==> forall k :: 0 <= k < |line| ==> line[k] != ','
  {
    var first := FirstOf(line, {','});
    if first.Some? {
      assert line[first.value] in {','};
    }
  }

  /** With a single comma, at p, the wrapped length takes the name to the
      end of the line. */
  lemma LineNameOneComma(line: string, p: nat)
    requires |line| < SizeRange
    requires p < |line| && line[p] == ','
    requires forall k :: 0 <= k < |line| && k != p ==> line[k] != ','
    ensures LineName(line) == Some(line[p + 1..])
  {
    assert line[p] in {','};
    assert FirstOf(line, {','}) == Some(p) && LastOf(line, {','}) == Some(p);
    assert (p - p - 1) % SizeRange == SizeRange - 1;
    assert Substr(line, p + 1, SizeRange - 1) == line[p + 1..];
  }

  /** With the first comma at p and the last at q > p, the name is what
      lies strictly between them. */
  lemma LineNameBetween(line: string, p: nat, q: nat)
    requires |line| < SizeRange
    requires p < q < |line| && line[p] == ',' && line[q] == ','
    requires forall k :: 0 <= k < p ==> line[k] != ','
    requires forall k :: q < k < |line| ==> line[k] != ','
    ensures LineName(line) == Some(line[p + 1 .. q])
  {
    assert line[p] in {','} && line[q] in {','};
    assert FirstOf(line, {','}) == Some(p) && LastOf(line, {','}) == Some(q);
    assert (q - p - 1) % SizeRange == q - p - 1;
  }

  /** The directory of the texlist index: everything up to and including the
      last '/' or '\', or nothing when there is neither. */
  function TexBase(path: string): (base: string)
    ensures |base| <= |path| && base == path[..|base|]
    ensures base != [] ==> base[|base| - 1] in {'/', '\\'} &&
                           forall k :: |base| <= k < |path| ==> path[k] !in {'/', '\\'}
    ensures base == [] ==> forall k :: 0 <= k < |path| ==> path[k] !in {'/', '\\'}
  {
    match LastOf(path, {'/', '\\'})
    case None => []
    case Some(cut) => path[..cut + 1]
  }

  /** The names of the three mirrored copies. */
  function FlipNames(name: string): (r: (string, string, string))
  {
    ("fu_" + name, "fv_" + name, "fuv_" + name)
  }

  /** The copies' names differ from each other and from the name, and each
      gives the name back once its prefix is taken off. */
  lemma FlipNamesDistinct(name: string)
    ensures var (fu, fv, fuv) := FlipNames(name);
            fu[3..] == name && fv[3..] == name && fuv[4..] == name &&
            fu != fv && fu != fuv && fv != fuv && fu != name && fv != name && fuv != name
  {
    var (fu, fv, fuv) := FlipNames(name);
    assert fu[1] == 'u' && fv[1] == 'v' && fuv[2] == 'v';
    assert |fu| == |name| + 3 && |fuv| == |name| + 4;
  }

  /** Some pixel of the image is not fully opaque. */
  predicate Translucent(img: Image)
  {
    exists y: nat, x: nat :: y < img.h && x < img.w && img.pixel(y, x).a != 0xFF
  }

  /** The record pushed for a texture whose image loaded: its names, its
      size, its transparency, and no URLs yet. */
  function TextureOf(name: string, img: Image): Texture
  {
    var (fu, fv, fuv) := FlipNames(name);
    Texture(name, fu, fv, fuv, "", "", "", "", img.w, img.h, Translucent(img))
  }

  /** Every named line among the first k loads. */
  predicate LoadsUpTo(lines: seq<string>, base: string, load: string -> Option<Image>, k: nat)
    requires k <= |lines|
  {
    forall j :: 0 <= j < k && LineName(lines[j]).Some? ==> load(base + LineName(lines[j]).value).Some?
  }

  /** The textures of the first k lines, in line order: one per named line
      whose image loads. */
  function Textures(lines: seq<string>, base: string, load: string -> Option<Image>, k: nat): seq<Texture>
    requires k <= |lines|
  {
    if k == 0 then []
    else
      var rest := Textures(lines, base, load, k - 1);
      match LineName(lines[k - 1])
      case None => rest
      case Some(name) =>
        match load(base + name)
        case None => rest
        case Some(img) => rest + [TextureOf(name, img)]
  }

  /** A line without a comma adds no texture, and there is at most one
      texture per line. */
  lemma {:induction false} TexturesCount(lines: seq<string>, base: string, load: string -> Option<Image>, k: nat)
    requires k <= |lines|
    ensures |Textures(lines, base, load, k)| <= k
    ensures (forall j :: 0 <= j < k ==> LineName(lines[j]).None?) ==> Textures(lines, base, load, k) == []
  {
    if k > 0 {
      TexturesCount(lines, base, load, k - 1);
    }
  }

  /** Reads the texlist: for every named line, loads the image (status 1 at
      the first that does not load), measures its transparency, builds the
      mirrored copies and appends the texture record. */
  method ReadTexlist(lvl: Level<int>, texlistPath: string, lines: seq<string>, load: string -> Option<Image>)
    returns (status: int)
    modifies lvl`textures
    ensures status == 0 || status == 1
    ensures status == 0 <==> LoadsUpTo(lines, TexBase(texlistPath), load, |lines|)
    ensures status == 0 ==> lvl.textures == old(lvl.textures) + Textures(lines, TexBase(texlistPath), load, |lines|)
    ensures status == 1 ==>
              exists k :: 0 <= k < |lines| && LoadsUpTo(lines, TexBase(texlistPath), load, k) &&
                LineName(lines[k]).Some? && load(TexBase(texlistPath) + LineName(lines[k]).value).None? &&
                lvl.textures == old(lvl.textures) + Textures(lines, TexBase(texlistPath), load, k)
  {
    var base := TexBase(texlistPath);
    ghost var t0 := lvl.textures;
    for i := 0 to |lines|
      invariant LoadsUpTo(lines, base, load, i)
      invariant lvl.textures == t0 + Textures(lines, base, load, i)
    {
      var ok := ReadLine(lvl, lines, base, load, i, t0);
      if !ok {
        status := 1;
        return;
      }
    }
    status := 0;
  }

  /** One line of the texlist: nothing for a line without a comma, the
      texture for a named line whose image loads, failure otherwise. */
  method ReadLine(lvl: Level<int>, lines: seq<string>, base: string, load: string -> Option<Image>, i: nat, ghost t0: seq<Texture>)
    returns (ok: bool)
    requires i < |lines| && LoadsUpTo(lines, base, load, i)
    requires lvl.textures == t0 + Textures(lines, base, load, i)
    modifies lvl`textures
    ensures ok ==> LoadsUpTo(lines, base, load, i + 1) && lvl.textures == t0 + Textures(lines, base, load, i + 1)
    ensures !ok ==> LineName(lines[i]).Some? && load(base + LineName(lines[i]).value).None? &&
                    lvl.textures == t0 + Textures(lines, base, load, i)
  {
    var name := LineName(lines[i]);
    if name.Some? {
      var img := load(base + name.value);
      if img.None? {
        return false;
      }
      var texture := LoadTexture(name.value, img.value);
      lvl.textures := lvl.textures + [texture];
    }
    ok := true;
  }

  /** One texture: the loaded pixels, their transparency, the three
      mirrored copies, and the record with the names and the size. */
  method LoadTexture(name: string, img: Image) returns (texture: Texture)
    ensures texture == TextureOf(name, img)
  {
    var src := new Pixel[img.h, img.w]((y: nat, x: nat) => img.pixel(y, x));
    assert forall y, x :: 0 <= y < img.h && 0 <= x < img.w ==> src[y, x] == img.pixel(y, x);
    var transparent := Transparent(src);
    TranslucentArray(img, src);
    var fu, fv, fuv := FlippedCopies(src);
    var (nameFu, nameFv, nameFuv) := FlipNames(name);
    texture := Texture(name, nameFu, nameFv, nameFuv, "", "", "", "", img.w, img.h, transparent);
  }

  /** An array filled from an image is translucent exactly when the image is. */
  lemma TranslucentArray(img: Image, src: array2<Pixel>)
    requires src.Length0 == img.h && src.Length1 == img.w
    requires forall y, x :: 0 <= y < img.h && 0 <= x < img.w ==> src[y, x] == img.pixel(y, x)
    ensures Translucent(img) <==> exists y, x :: 0 <= y < src.Length0 && 0 <= x < src.Length1 && src[y, x].a != 0xFF
  {
    if Translucent(img) {
      var y: nat, x: nat :| y < img.h && x < img.w && img.pixel(y, x).a != 0xFF;
      assert src[y, x].a != 0xFF;
    }
  }

  /** Pixel j in row-major order. */
  function Flat(src: array2<Pixel>, j: nat): Pixel
    reads src
    requires j < src.Length0 * src.Length1
  {
    FlatIndex(j, src.Length1, src.Length0);
    src[j / src.Length1, j % src.Length1]
  }

  /** Multiplication by a natural number keeps the order. */
  lemma {:induction false} MulLe(a: nat, b: nat, c: nat)
    requires a <= b
    ensures a * c <= b * c
  {
    if c > 0 {
      MulLe(a, b, c - 1);
      assert a * c == a * (c - 1) + a && b * c == b * (c - 1) + b;
    }
  }

  /** Quotient and remainder are unique: y * w + x with x < w divides into y and x. */
  lemma DivUnique(j: int, w: int, y: int, x: int)
    requires w > 0 && 0 <= x < w && j == y * w + x
    ensures j / w == y && j % w == x
  {
    var q, r := j / w, j % w;
    assert j == q * w + r;
    if q > y {
      MulLe(1, q - y, w);
      assert false;
    }
    if q < y {
      MulLe(1, y - q, w);
      assert false;
    }
  }

  lemma FlatIndex(j: nat, w: nat, h: nat)
    requires j < h * w
    ensures w > 0 && j / w < h && j % w < w
  {
    if w == 0 {
      assert false;
    }
    if j / w >= h {
      MulLe(h, j / w, w);
      assert false;
    }
  }

  /** Row y, column x is pixel y * w + x in row-major order. */
  lemma RowMajor(y: nat, x: nat, w: nat, h: nat)
    requires y < h && x < w
    ensures y * w + x < h * w && (y * w + x) / w == y && (y * w + x) % w == x
  {
    MulLe(y + 1, h, w);
    assert (y + 1) * w == y * w + w;
    DivUnique(y * w + x, w, y, x);
  }

  /** A translucent pixel found in row-major order is at its row and column. */
  lemma FlatToRowColumn(src: array2<Pixel>, j: nat)
    requires j < src.Length0 * src.Length1 && Flat(src, j).a != 0xFF
    ensures exists y, x :: 0 <= y < src.Length0 && 0 <= x < src.Length1 && src[y, x].a != 0xFF
  {
    FlatIndex(j, src.Length1, src.Length0);
    assert src[j / src.Length1, j % src.Length1].a != 0xFF;
  }

  /** A translucent pixel at row y, column x is pixel y * w + x in row-major order. */
  lemma RowColumnToFlat(src: array2<Pixel>, y: nat, x: nat)
    requires y < src.Length0 && x < src.Length1 && src[y, x].a != 0xFF
    ensures exists j :: 0 <= j < src.Length0 * src.Length1 && Flat(src, j).a != 0xFF
  {
    RowMajor(y, x, src.Length1, src.Length0);
    assert Flat(src, y * src.Length1 + x) == src[y, x];
  }

  /** The transparency check: one pass over the w * h pixels in row-major
      order, setting the flag at any alpha other than 0xFF. */
  method Transparent(src: array2<Pixel>) returns (transparent: bool)
    ensures transparent <==> exists y, x :: 0 <= y < src.Length0 && 0 <= x < src.Length1 && src[y, x].a != 0xFF
  {
    var w, h := src.Length1, src.Length0;
    transparent := false;
    for i := 0 to w * h
      invariant transparent <==> exists j :: 0 <= j < i && Flat(src, j).a != 0xFF
    {
      if Flat(src, i).a != 0xFF {
        transparent := true;
      }
    }
    if transparent {
      var j :| 0 <= j < w * h && Flat(src, j).a != 0xFF;
      FlatToRowColumn(src, j);
    }
    if exists y, x :: 0 <= y < h && 0 <= x < w && src[y, x].a != 0xFF {
      var y, x :| 0 <= y < h && 0 <= x < w && src[y, x].a != 0xFF;
      RowColumnToFlat(src, y, x);
    }
  }

  /** Folding a coordinate of a mirrored copy back into the original: the
      first n positions are the original, the next n run backwards. */
  function Mirror(x: nat, n: nat): nat
    requires x < 2 * n
  {
    if x < n then x else 2 * n - 1 - x
  }

  /** A coordinate of the doubled copy lands in the original, and positions
      x and 2n-1-x land on the same place. */
  lemma MirrorFacts(x: nat, n: nat)
    requires x < 2 * n
    ensures Mirror(x, n) < n
    ensures Mirror(2 * n - 1 - x, n) == Mirror(x, n)
    ensures x < n ==> Mirror(x, n) == x
  {
  }

  /** The horizontal flip: a copy twice as wide whose right half is the
      original mirrored left to right. Column by column, then row by row,
      one pixel at a time. */
  method FlipU(src: array2<Pixel>) returns (fu: array2<Pixel>)
    ensures fresh(fu) && fu.Length0 == src.Length0 && fu.Length1 == 2 * src.Length1
    ensures forall y, x :: 0 <= y < fu.Length0 && 0 <= x < fu.Length1 ==> fu[y, x] == src[y, Mirror(x, src.Length1)]
  {
    var w, h := src.Length1, src.Length0;
    fu := new Pixel[h, 2 * w];
    for x := 0 to 2 * w
      invariant forall y', x' :: 0 <= y' < h && 0 <= x' < x ==> fu[y', x'] == src[y', Mirror(x', w)]
    {
      var srcX := x;
      if srcX >= w {
        srcX := w * 2 - srcX - 1;
      }
      for y := 0 to h
        invariant forall y', x' :: 0 <= y' < h && 0 <= x' < x ==> fu[y', x'] == src[y', Mirror(x', w)]
        invariant forall y' :: 0 <= y' < y ==> fu[y', x] == src[y', Mirror(x, w)]
      {
        fu[y, x] := src[y, srcX];
      }
    }
  }

  /** memcpy of one row of `src` into row `dy` of `dst`; the other rows of
      `dst` are kept. */
  method CopyRow(src: array2<Pixel>, sy: nat, dst: array2<Pixel>, dy: nat)
    requires src != dst && sy < src.Length0 && dy < dst.Length0 && dst.Length1 == src.Length1
    modifies dst
    ensures forall x :: 0 <= x < dst.Length1 ==> dst[dy, x] == src[sy, x]
    ensures forall y, x :: 0 <= y < dst.Length0 && y != dy && 0 <= x < dst.Length1 ==> dst[y, x] == old(dst[y, x])
  {
    for x := 0 to dst.Length1
      invariant forall x' :: 0 <= x' < x ==> dst[dy, x'] == src[sy, x']
      invariant forall y, x' :: 0 <= y < dst.Length0 && y != dy && 0 <= x' < dst.Length1 ==> dst[y, x'] == old(dst[y, x'])
    {
      dst[dy, x] := src[sy, x];
    }
  }

  /** The vertical flip: a copy twice as tall whose top half is the
      original and whose row h + y is the original's row h - y - 1. */
  method FlipV(src: array2<Pixel>) returns (fv: array2<Pixel>)
    ensures fresh(fv) && fv.Length0 == 2 * src.Length0 && fv.Length1 == src.Length1
    ensures forall y, x :: 0 <= y < fv.Length0 && 0 <= x < fv.Length1 ==> fv[y, x] == src[Mirror(y, src.Length0), x]
  {
    var w, h := src.Length1, src.Length0;
    fv := new Pixel[h * 2, w];
    for y := 0 to h
      invariant forall y', x :: 0 <= y' < y && 0 <= x < w ==> fv[y', x] == src[Mirror(y', h), x]
    {
      CopyRow(src, y, fv, y);
    }
    for y := 0 to h
      invariant forall y', x :: 0 <= y' < h + y && 0 <= x < w ==> fv[y', x] == src[Mirror(y', h), x]
    {
      CopyRow(src, h - y - 1, fv, h + y);
    }
  }

  /** The three mirrored copies: in u, in v, and in both (the vertical flip
      of the horizontal one). */
  method FlippedCopies(src: array2<Pixel>) returns (fu: array2<Pixel>, fv: array2<Pixel>, fuv: array2<Pixel>)
    ensures fresh(fu) && fresh(fv) && fresh(fuv)
    ensures fu.Length0 == src.Length0 && fu.Length1 == 2 * src.Length1
    ensures fv.Length0 == 2 * src.Length0 && fv.Length1 == src.Length1
    ensures fuv.Length0 == 2 * src.Length0 && fuv.Length1 == 2 * src.Length1
    ensures forall y, x :: 0 <= y < fu.Length0 && 0 <= x < fu.Length1 ==> fu[y, x] == src[y, Mirror(x, src.Length1)]
    ensures forall y, x :: 0 <= y < fv.Length0 && 0 <= x < fv.Length1 ==> fv[y, x] == src[Mirror(y, src.Length0), x]
    ensures forall y, x :: 0 <= y < fuv.Length0 && 0 <= x < fuv.Length1 ==>
              fuv[y, x] == src[Mirror(y, src.Length0), Mirror(x, src.Length1)]
  {
    fu := FlipU(src);
    fv := FlipV(src);
    fuv := FlipV(fu);
  }

  /** Channel c (0 red, 1 green, 2 blue, otherwise alpha) of a pixel. */
  function Channel(p: Pixel, c: nat): byte
  {
    if c == 0 then p.r else if c == 1 then p.g else if c == 2 then p.b else p.a
  }

  function WithChannel(p: Pixel, c: nat, v: byte): Pixel
  {
    if c == 0 then p.(r := v) else if c == 1 then p.(g := v) else if c == 2 then p.(b := v) else p.(a := v)
  }

  /** One step down or up, saturating at 0 and at 0xFF. */
  function Bumped(v: byte, down: bool): (r: byte)
    ensures down ==> r == (if v == 0 then 0 else v - 1)
    ensures !down ==> r == (if v == 0xFF then 0xFF else v + 1)
  {
    if down then (if v != 0 then v - 1 else 0) else (if v != 0xFF then v + 1 else 0xFF)
  }

  /** A bumped byte moves by at most one, and stays put only at the bound
      it moves towards; the other channels of the pixel are kept. */
  lemma BumpedFacts(p: Pixel, c: nat, down: bool)
    requires c < 3
    ensures var v := Channel(p, c);
            var r := Bumped(v, down);
            -1 <= r - v <= 1 && (r == v <==> (down && v == 0) || (!down && v == 0xFF))
    ensures var q := WithChannel(p, c, Bumped(Channel(p, c), down));
            Channel(q, c) == Bumped(Channel(p, c), down) && q.a == p.a &&
            forall d :: 0 <= d < 3 && d != c ==> Channel(q, d) == Channel(p, d)
  {
  }

  /** The mutation applied to each image before it is written: one colour
      byte of one pixel, chosen by the draws ry, rx and rc, goes one step
      down when the coin draw is odd and one step up otherwise. Every other
      byte is kept. */
  method Nudge(buf: array2<Pixel>, ry: nat, rx: nat, rc: nat, coin: nat)
    requires buf.Length0 > 0 && buf.Length1 > 0
    modifies buf
    ensures var y, x := ry % buf.Length0, rx % buf.Length1;
            buf[y, x] == WithChannel(old(buf[y, x]), rc % 3, Bumped(Channel(old(buf[y, x]), rc % 3), coin % 2 == 1))
    ensures forall y, x :: 0 <= y < buf.Length0 && 0 <= x < buf.Length1 && (y != ry % buf.Length0 || x != rx % buf.Length1) ==>
              buf[y, x] == old(buf[y, x])
  {
    var y, x, c := ry % buf.Length0, rx % buf.Length1, rc % 3;
    var p := buf[y, x];
    var v := Channel(p, c);
    if coin % 2 == 1 {
      v := if v != 0 then v - 1 else 0;
    } else {
      v := if v != 0xFF then v + 1 else 0xFF;
    }
    buf[y, x] := WithChannel(p, c, v);
  }
}
