/** The emitter's passes over the level once the loaders have filled it:
    every mesh part gets a running file number, its box correction and its
    ".mesh" file; the textures and parts get their rbxasset:// URLs, each
    textured part the URL of the mirrored copy its flip flags ask for; and
    every part of every placed instance becomes a part instance in the
    collision list or the visual list. The meshes and their parts are
    visited in the order the caller lists them (the order of the level's
    unordered maps). */
module Emitter {
  import opened Types
  import opened Dedup
  import opened Bounds
  import opened Salvl
  import Basic
  import Bytes
  import MeshFile
  import Placement
  import Texlist

  /** One decimal digit. */
  function Digit(d: int): char
    requires 0 <= d < 10
  {
    ('0' as int + d) as char
  }

  /** std::to_string of an unsigned value: its decimal digits, most
      significant first, with no leading zero. */
  function Decimal(n: nat): (s: string)
    ensures |s| >= 1 && forall k :: 0 <= k < |s| ==> '0' <= s[k] <= '9'
    ensures s[0] == '0' <==> n == 0
  {
    if n < 10 then [Digit(n)] else Decimal(n / 10) + [Digit(n % 10)]
  }

  /** The value of a string of decimal digits. */
  function DecimalValue(s: string): int
  {
    if s == [] then 0 else DecimalValue(s[..|s| - 1]) * 10 + (s[|s| - 1] as int - '0' as int)
  }

  /** Reading the digits back gives the number, so distinct numbers have
      distinct decimal forms. */
  lemma {:induction false} DecimalRoundTrip(n: nat)
    ensures DecimalValue(Decimal(n)) == n
  {
    if n >= 10 {
      DecimalRoundTrip(n / 10);
      var s := Decimal(n);
      assert s[..|s| - 1] == Decimal(n / 10);
    }
  }

  /** The file name of part number n. */
  function MeshName(n: nat): string
  {
    Decimal(n) + ".mesh"
  }

  /** Parts with distinct numbers get distinct file names. */
  lemma MeshNamesDistinct(a: nat, b: nat)
    requires a != b
    ensures MeshName(a) != MeshName(b)
  {
    if MeshName(a) == MeshName(b) {
      var x, y := MeshName(a), MeshName(b);
      assert Decimal(a) == x[..|x| - 5];
      assert Decimal(b) == y[..|y| - 5];
      DecimalRoundTrip(a);
      DecimalRoundTrip(b);
      assert false;
    }
  }

  /** The attributes a part's vertex records carry. */
  function AttribsOf(vs: seq<Vertex>): (r: seq<MeshFile.Attribs>)
    ensures |r| == |vs|
  {
    seq(|vs|, k requires 0 <= k < |vs| => MeshFile.Attribs(vs[k].pos, vs[k].nor, vs[k].tex))
  }

  /** The box correction AABBCorrect records for a part's vertices (zero
      for an empty part). */
  function Centre(vs: seq<Vertex>): Vec3
  {
    if |vs| > 0 then Midpoint(Positions(vs)) else Zero3
  }

  /** The size AABBCorrect records for a part's vertices. */
  function BoxSize(vs: seq<Vertex>): Vec3
  {
    if |vs| > 0 then ClampedSize(Positions(vs), 0.2) else Vec3(0.2, 0.2, 0.2)
  }

  /** The .mesh file of a part that held vertices `vs` and indices `ix`:
      its vertices recentred on their box centre, its indices as they are. */
  function PartFile(vs: seq<Vertex>, ix: seq<int>, bits: real -> Word): seq<byte>
  {
    MeshFile.File(AttribsOf(Recentred(vs, Centre(vs))), ix, bits)
  }

  /** A part after the writing pass: number `ind`, the name "ind.mesh", its
      box corrected from the vertices `vs` it held, its indices `ix` kept. */
  predicate Written(part: MeshPart<int>, vs: seq<Vertex>, ix: seq<int>, ind: Word)
    reads part
  {
    part.ind == ind && part.name == MeshName(ind) && part.indices == ix &&
    part.aabbCorrect == Centre(vs) && part.size == BoxSize(vs) &&
    part.vertex == Recentred(vs, part.aabbCorrect)
  }

  /** One pass of the writing loop: AABBCorrect, the name and number, and
      the file: magic, header, one record per vertex, one word per index. */
  method WritePart(part: MeshPart<int>, ghost vs: seq<Vertex>, ghost ix: seq<int>, ind: Word, bits: real -> Word)
      returns (file: seq<byte>)
    requires part.vertex == vs && part.indices == ix
    modifies part`vertex, part`size, part`aabbCorrect, part`name, part`ind
    ensures Written(part, vs, ix, ind)
    ensures file == PartFile(vs, ix, bits)
  {
    part.AABBCorrect();
    part.name := MeshName(ind);
    part.ind := ind;
    var out := new Bytes.ByteStream();
    MeshFile.WriteFile(out, AttribsOf(part.vertex), part.indices, bits);
    file := out.data;
  }

  /** The parts before the n-th. */
  ghost function PartsBefore(parts: seq<MeshPart<int>>, n: nat): set<MeshPart<int>>
    requires n <= |parts|
  {
    set i | 0 <= i < n :: parts[i]
  }

  /** The first n parts are written, part i with number i modulo 2^32. */
  ghost predicate WrittenUpTo(parts: seq<MeshPart<int>>, vals: seq<(seq<Vertex>, seq<int>)>, n: nat)
    requires n <= |parts| == |vals|
    reads PartsBefore(parts, n)
  {
    forall i :: 0 <= i < n ==> Written(parts[i], vals[i].0, vals[i].1, i % 0x1_0000_0000)
  }

  /** The writing loop over every part in visiting order. The running
      number is an unsigned int, so part n gets number n modulo 2^32 and,
      below 2^32 parts, every part a file name of its own. */
  method WriteMeshes(parts: seq<MeshPart<int>>, ghost vals: seq<(seq<Vertex>, seq<int>)>, bits: real -> Word)
      returns (files: seq<seq<byte>>)
    requires |vals| == |parts|
    requires forall n :: 0 <= n < |parts| ==> parts[n].vertex == vals[n].0 && parts[n].indices == vals[n].1
    requires forall i, j :: 0 <= i < j < |parts| ==> parts[i] != parts[j]
    modifies set n | 0 <= n < |parts| :: parts[n]
    ensures |files| == |parts|
    ensures forall n :: 0 <= n < |parts| ==> Written(parts[n], vals[n].0, vals[n].1, n % 0x1_0000_0000)
    ensures forall n :: 0 <= n < |parts| ==> files[n] == PartFile(vals[n].0, vals[n].1, bits)
  {
    files := [];
    var meshInd: Word := 0;
    var n := 0;
    while n < |parts|
      invariant n <= |parts| && |files| == n && meshInd == n % 0x1_0000_0000
      invariant WrittenUpTo(parts, vals, n)
      invariant files == FilesOf(vals, bits)[..n]
      invariant forall i :: n <= i < |parts| ==> parts[i].vertex == vals[i].0 && parts[i].indices == vals[i].1
    {
      assert parts[n] !in PartsBefore(parts, n);
      var file := WritePart(parts[n], vals[n].0, vals[n].1, meshInd, bits);
      Snoc(FilesOf(vals, bits), files, file, n);
      files := files + [file];
      WordSucc(n);
      meshInd := (meshInd + 1) % 0x1_0000_0000;
      n := n + 1;
    }
    assert FilesOf(vals, bits)[..n] == FilesOf(vals, bits);
  }

  /** The files of all parts, in order. */
  function FilesOf(vals: seq<(seq<Vertex>, seq<int>)>, bits: real -> Word): (r: seq<seq<byte>>)
    ensures |r| == |vals|
    ensures forall n :: 0 <= n < |vals| ==> r[n] == PartFile(vals[n].0, vals[n].1, bits)
  {
    seq(|vals|, n requires 0 <= n < |vals| => PartFile(vals[n].0, vals[n].1, bits))
  }

  lemma Snoc<T>(all: seq<T>, xs: seq<T>, x: T, n: nat)
    requires n < |all| && xs == all[..n] && x == all[n]
    ensures xs + [x] == all[..n+1]
  {
  }

  lemma WrittenName(part: MeshPart<int>, vs: seq<Vertex>, ix: seq<int>, ind: Word)
    requires Written(part, vs, ix, ind)
    ensures part.name == MeshName(ind)
  {
  }

  /** Below 2^32 parts the written parts have pairwise distinct names. */
  lemma WrittenNamesDistinct(parts: seq<MeshPart<int>>, vals: seq<(seq<Vertex>, seq<int>)>)
    requires |vals| == |parts| <= 0x1_0000_0000
    requires forall n :: 0 <= n < |parts| ==> Written(parts[n], vals[n].0, vals[n].1, n % 0x1_0000_0000)
    ensures forall i, j :: 0 <= i < j < |parts| ==> parts[i].name != parts[j].name
  {
    forall i, j | 0 <= i < j < |parts|
      ensures parts[i].name != parts[j].name
    {
      WrittenName(parts[i], vals[i].0, vals[i].1, i % 0x1_0000_0000);
      WrittenName(parts[j], vals[j].0, vals[j].1, j % 0x1_0000_0000);
      MeshNamesDistinct(i % 0x1_0000_0000, j % 0x1_0000_0000);
    }
  }

  /** The URL of an asset written to the content folder. */
  const AssetPrefix: string := "rbxasset://salvl/"

  function Asset(name: string): string
  {
    AssetPrefix + name
  }

  /** The name is the URL without the prefix, so distinct names have
      distinct URLs. */
  lemma AssetName(name: string, other: string)
    ensures Asset(name)[|AssetPrefix|..] == name
    ensures name != other ==> Asset(name) != Asset(other)
  {
    assert Asset(name)[|AssetPrefix|..] == name;
    assert Asset(other)[|AssetPrefix|..] == other;
  }

  /** A texture with its four URLs set from its four names. */
  function WithUrls(t: Texture): Texture
  {
    t.(url := Asset(t.name), urlFu := Asset(t.nameFu), urlFv := Asset(t.nameFv), urlFuv := Asset(t.nameFuv))
  }

  /** Each URL of a texture is that of the name of the same variant. */
  predicate UrlsSet(t: Texture)
  {
    t.url == Asset(t.name) && t.urlFu == Asset(t.nameFu) && t.urlFv == Asset(t.nameFv) && t.urlFuv == Asset(t.nameFuv)
  }

  /** Setting the URLs keeps the names, the size and the transparency, and
      setting them twice changes nothing more. */
  lemma WithUrlsFacts(t: Texture)
    ensures UrlsSet(WithUrls(t))
    ensures var r := WithUrls(t);
            r.name == t.name && r.nameFu == t.nameFu && r.nameFv == t.nameFv && r.nameFuv == t.nameFuv &&
            r.xres == t.xres && r.yres == t.yres && r.transparent == t.transparent
    ensures UrlsSet(t) ==> WithUrls(t) == t
  {
  }

  /** The URL pass over the textures. */
  method TextureUrls(lvl: Level<int>)
    modifies lvl`textures
    ensures |lvl.textures| == |old(lvl.textures)|
    ensures forall i :: 0 <= i < |lvl.textures| ==> lvl.textures[i] == WithUrls(old(lvl.textures[i]))
  {
    for i := 0 to |lvl.textures|
      invariant |lvl.textures| == |old(lvl.textures)|
      invariant forall k :: 0 <= k < i ==> lvl.textures[k] == WithUrls(old(lvl.textures[k]))
      invariant forall k :: i <= k < |lvl.textures| ==> lvl.textures[k] == old(lvl.textures[k])
    {
      var t := lvl.textures[i];
      t := t.(url := AssetPrefix + t.name);
      t := t.(urlFu := AssetPrefix + t.nameFu);
      t := t.(urlFv := AssetPrefix + t.nameFv);
      t := t.(urlFuv := AssetPrefix + t.nameFuv);
      lvl.textures := lvl.textures[i := t];
    }
  }

  /** The variant a textured part shows, as (name, URL): FLIP_U and FLIP_V
      give the copy mirrored both ways, FLIP_U alone the one mirrored in u,
      FLIP_V alone the one mirrored in v, neither the texture itself. */
  function Variant(flags: bv32, t: Texture): (string, string)
  {
    if flags & Basic.FlagFlipU != 0 then
      (if flags & Basic.FlagFlipV != 0 then (t.nameFuv, t.urlFuv) else (t.nameFu, t.urlFu))
    else
      (if flags & Basic.FlagFlipV != 0 then (t.nameFv, t.urlFv) else (t.name, t.url))
  }

  /** The prefix of the mirrored copy the flip flags select. */
  function FlipPrefix(flags: bv32): string
  {
    if flags & Basic.FlagFlipU != 0 then (if flags & Basic.FlagFlipV != 0 then "fuv_" else "fu_")
    else (if flags & Basic.FlagFlipV != 0 then "fv_" else "")
  }

  /** For a texture read from the texlist whose URLs are set, the variant
      is the file of the copy the flags select, and its URL is that file's
      asset URL. */
  lemma VariantOfTexture(flags: bv32, name: string, img: Texlist.Image)
    ensures var v := Variant(flags, WithUrls(Texlist.TextureOf(name, img)));
            v.0 == FlipPrefix(flags) + name && v.1 == Asset(v.0)
  {
  }

  /** A part whose texture is used: USE_TEXTURE is set and it has a texture. */
  predicate Textured(matflags: bv32, texture: Option<nat>)
  {
    matflags & Basic.FlagUseTexture != 0 && texture.Some?
  }

  /** The URLs of one part: its mesh URL, and for a textured part the name
      and URL of its texture variant. */
  method PartUrl(part: MeshPart<int>, textures: seq<Texture>)
    requires Textured(part.matflags, part.texture) ==> part.texture.value < |textures|
    modifies part`url, part`nameTexture, part`urlTexture
    ensures part.url == Asset(part.name)
    ensures Textured(part.matflags, part.texture) ==>
              (part.nameTexture, part.urlTexture) == Variant(part.matflags, textures[part.texture.value])
    ensures !Textured(part.matflags, part.texture) ==>
              part.nameTexture == old(part.nameTexture) && part.urlTexture == old(part.urlTexture)
  {
    part.url := AssetPrefix + part.name;
    if part.matflags & Basic.FlagUseTexture != 0 && part.texture.Some? {
      var t := textures[part.texture.value];
      if part.matflags & Basic.FlagFlipU != 0 {
        part.nameTexture := if part.matflags & Basic.FlagFlipV != 0 then t.nameFuv else t.nameFu;
        part.urlTexture := if part.matflags & Basic.FlagFlipV != 0 then t.urlFuv else t.urlFu;
      } else {
        part.nameTexture := if part.matflags & Basic.FlagFlipV != 0 then t.nameFv else t.name;
        part.urlTexture := if part.matflags & Basic.FlagFlipV != 0 then t.urlFv else t.url;
      }
    }
  }

  /** The URL pass over every part. */
  method PartUrls(parts: seq<MeshPart<int>>, textures: seq<Texture>)
    requires forall i, j :: 0 <= i < j < |parts| ==> parts[i] != parts[j]
    requires forall n :: 0 <= n < |parts| && Textured(parts[n].matflags, parts[n].texture) ==>
               parts[n].texture.value < |textures|
    modifies set n | 0 <= n < |parts| :: parts[n]
    ensures forall n :: 0 <= n < |parts| ==>
              parts[n].name == old(parts[n].name) && parts[n].matflags == old(parts[n].matflags) &&
              parts[n].texture == old(parts[n].texture) && parts[n].url == Asset(parts[n].name)
    ensures forall n :: 0 <= n < |parts| && Textured(parts[n].matflags, parts[n].texture) ==>
              (parts[n].nameTexture, parts[n].urlTexture) == Variant(parts[n].matflags, textures[parts[n].texture.value])
    ensures forall n :: 0 <= n < |parts| && !Textured(parts[n].matflags, parts[n].texture) ==>
              parts[n].nameTexture == old(parts[n].nameTexture) && parts[n].urlTexture == old(parts[n].urlTexture)
  {
    for i := 0 to |parts|
      invariant forall n :: 0 <= n < |parts| ==>
                  parts[n].name == old(parts[n].name) && parts[n].matflags == old(parts[n].matflags) &&
                  parts[n].texture == old(parts[n].texture)
      invariant forall n :: 0 <= n < i ==> parts[n].url == Asset(parts[n].name)
      invariant forall n :: 0 <= n < i && Textured(parts[n].matflags, parts[n].texture) ==>
                  (parts[n].nameTexture, parts[n].urlTexture) == Variant(parts[n].matflags, textures[parts[n].texture.value])
      invariant forall n :: 0 <= n < |parts| && (n >= i || !Textured(parts[n].matflags, parts[n].texture)) ==>
                  parts[n].nameTexture == old(parts[n].nameTexture) && parts[n].urlTexture == old(parts[n].urlTexture)
    {
      PartUrl(parts[i], textures);
    }
  }

  /** Every index of a mesh's creation order names one of its parts. */
  predicate MeshOk(mesh: Mesh<int>)
  {
    forall i :: 0 <= i < |mesh.order| ==> mesh.order[i] in mesh.parts
  }

  /** Every part object of the meshes. */
  function Objects(meshes: map<int, Mesh<int>>): set<MeshPart<int>>
  {
    set k, p | k in meshes && p in meshes[k].parts.Values :: p
  }

  /** What the placing loop reads of the first k parts of a mesh: the
      material id naming the part and its box correction. */
  function RefsOf(mesh: Mesh<int>, k: nat): (r: seq<Placement.PartRef>)
    requires MeshOk(mesh) && k <= |mesh.order|
    reads mesh.parts.Values
    ensures |r| == k
    ensures forall i :: 0 <= i < k ==> r[i] == Placement.PartRef(mesh.order[i], mesh.parts[mesh.order[i]].aabbCorrect)
  {
    if k == 0 then []
    else RefsOf(mesh, k - 1) + [Placement.PartRef(mesh.order[k - 1], mesh.parts[mesh.order[k - 1]].aabbCorrect)]
  }

  /** The part references of every mesh. */
  function Refs(meshes: map<int, Mesh<int>>): map<int, seq<Placement.PartRef>>
    requires forall k :: k in meshes ==> MeshOk(meshes[k])
    reads Objects(meshes)
  {
    map k | k in meshes :: RefsOf(meshes[k], |meshes[k].order|)
  }

  /** The placing loop of the emitter, on the remapped flags, with the
      references the parts carry after the writing pass: an instance with
      the solid bit sends its part instances to the collision list, one
      with only the visible bit to the visual list, and no part instance
      goes to both. */
  method PlaceInstances(lvl: Level<int>, refs: map<int, seq<Placement.PartRef>>)
      returns (collision: seq<Placement.PartInstance>, visual: seq<Placement.PartInstance>)
    requires forall k :: k in lvl.meshes ==> MeshOk(lvl.meshes[k])
    requires refs == Refs(lvl.meshes)
    requires Placement.InstancesOk(lvl.meshinstances, refs)
    ensures collision == Placement.Routed(lvl.meshinstances, refs, SurfSolid, SurfVisible, Placement.Collision, |lvl.meshinstances|)
    ensures visual == Placement.Routed(lvl.meshinstances, refs, SurfSolid, SurfVisible, Placement.Visual, |lvl.meshinstances|)
    ensures forall p :: p in collision ==> p.surfFlag & SurfSolid != 0
    ensures forall p :: p in visual ==> p.surfFlag & SurfSolid == 0 && p.surfFlag & SurfVisible != 0 && p.transparency == 0.0
  {
    collision, visual := Placement.Place(lvl.meshinstances, refs, SurfSolid, SurfVisible);
    Placement.ListFlags(lvl.meshinstances, refs, SurfSolid, SurfVisible);
  }
}
