/** Normalized clipboard values and their digests (crates/platform/src/clipboard.rs). */
module ClipboardValue {
  import opened Bytes
  import opened LossyText

  type Usize = n: nat | n <= 0xFFFF_FFFF_FFFF_FFFF

  datatype Value =
    | Text(text: Bytes.Text)
    | Html(plain: Bytes.Text, html: Bytes.Text)
    | Rtf(plain: Bytes.Text, rtf: Bytes.Text)
    | Image(width: Usize, height: Usize, rgba: seq<byte>)
    | Files(paths: seq<Path>)

  /** A Unix path is absolute when it starts at the root. */
  predicate Absolute(path: seq<byte>) {
    |path| > 0 && path[0] == 0x2F
  }

  /** The shapes that have a digest; every other value is `InvalidContent`. */
  predicate Valid(value: Value) {
    match value
    case Text(text) => text != []
    case Html(plain, html) => plain != [] && html != []
    case Rtf(plain, rtf) => plain != [] && rtf != []
    case Image(width, height, rgba) => width > 0 && height > 0 && width * height * 4 == |rgba|
    case Files(paths) => paths != [] && forall p :: p in paths ==> Absolute(p)
  }

  /** A length-prefixed field of the hashed material. */
  function Field(bytes: seq<byte>): seq<byte> {
    LittleEndian(|bytes|, 8) + bytes
  }

  function Fields(paths: seq<Bytes.Text>): seq<byte> {
    if paths == [] then [] else Field(paths[0]) + Fields(paths[1..])
  }

  /** The domain separators "text", "html", "rtf", "rgba" and "files", each closed by a zero byte. */
  function Domain(value: Value): seq<byte> {
    match value
    case Text(_) => [116, 101, 120, 116, 0]
    case Html(_, _) => [104, 116, 109, 108, 0]
    case Rtf(_, _) => [114, 116, 102, 0]
    case Image(_, _, _) => [114, 103, 98, 97, 0]
    case Files(_) => [102, 105, 108, 101, 115, 0]
  }

  function Body(value: Value): seq<byte> {
    match value
    case Text(text) => text
    case Html(plain, html) => Field(plain) + Field(html)
    case Rtf(plain, rtf) => Field(plain) + Field(rtf)
    case Image(width, height, rgba) => LittleEndian(width, 8) + LittleEndian(height, 8) + rgba
    case Files(paths) => Fields(TextsOf(paths))
  }

  /** A digest is represented by the bytes that are hashed: a hash without collisions. */
  type Digest = seq<byte>

  /** Validate the shape and compute the digest. */
  function DigestOf(value: Value): Option<Digest> {
    if Valid(value) then Some(Domain(value) + Body(value)) else None
  }

  lemma FieldSplits(a: Bytes.Text, b: Bytes.Text, restA: seq<byte>, restB: seq<byte>)
    requires Field(a) + restA == Field(b) + restB
    ensures a == b && restA == restB
  {
    Widths();
    var whole := Field(a) + restA;
    assert whole[..8] == LittleEndian(|a|, 8);
    assert whole[..8] == LittleEndian(|b|, 8);
    LittleEndianRoundTrip(|a|, 8);
    LittleEndianRoundTrip(|b|, 8);
    assert whole[8..8 + |a|] == a;
    assert whole[8..8 + |b|] == b;
    assert whole[8 + |a|..] == restA;
    assert whole[8 + |b|..] == restB;
  }

  lemma {:induction false} FieldsInjective(a: seq<Bytes.Text>, b: seq<Bytes.Text>)
    requires Fields(a) == Fields(b)
    ensures a == b
  {
    if a != [] && b != [] {
      FieldSplits(a[0], b[0], Fields(a[1..]), Fields(b[1..]));
      FieldsInjective(a[1..], b[1..]);
      assert a == [a[0]] + a[1..];
      assert b == [b[0]] + b[1..];
    }
  }

  /** The first two bytes tell the domains apart. */
  lemma DomainsDiffer(a: Value, b: Value)
    requires Domain(a)[0] == Domain(b)[0] && Domain(a)[1] == Domain(b)[1]
    ensures Domain(a) == Domain(b)
  {
  }

  lemma DomainsSeparate(a: Value, b: Value)
    requires Domain(a) + Body(a) == Domain(b) + Body(b)
    ensures Domain(a) == Domain(b) && Body(a) == Body(b)
  {
    var whole := Domain(a) + Body(a);
    assert whole[0] == Domain(a)[0] == Domain(b)[0];
    assert whole[1] == Domain(a)[1] == Domain(b)[1];
    DomainsDiffer(a, b);
    assert whole[|Domain(a)|..] == Body(a);
    assert whole[|Domain(b)|..] == Body(b);
  }

  lemma ImagesInjective(a: Value, b: Value)
    requires a.Image? && b.Image? && Body(a) == Body(b)
    ensures a == b
  {
    Widths();
    var whole := Body(a);
    assert whole[..8] == LittleEndian(a.width, 8) == LittleEndian(b.width, 8);
    assert whole[8..16] == LittleEndian(a.height, 8) == LittleEndian(b.height, 8);
    assert whole[16..] == a.rgba == b.rgba;
    LittleEndianRoundTrip(a.width, 8);
    LittleEndianRoundTrip(b.width, 8);
    LittleEndianRoundTrip(a.height, 8);
    LittleEndianRoundTrip(b.height, 8);
  }

  /** A value as its digest and its encoding show it: paths are replaced by their texts. */
  function Shown(value: Value): Value {
    if value.Files? then Files(PathsOf(TextsOf(value.paths))) else value
  }

  lemma ShownIffText(value: Value)
    ensures Shown(value) == value <==> (value.Files? ==> AllText(value.paths))
  {
    if value.Files? {
      TextsArePathsIff(value.paths);
    }
  }

  lemma TextsIdentify(a: seq<Path>, b: seq<Path>)
    ensures TextsOf(a) == TextsOf(b) <==> PathsOf(TextsOf(a)) == PathsOf(TextsOf(b))
  {
    TextsOfPaths(TextsOf(a));
    TextsOfPaths(TextsOf(b));
  }

  /** The hashed material separates domains and frames its fields: two values with a digest have the same
      digest exactly when they show the same, that is, when they are equal up to bytes of their paths that
      are not text. */
  lemma DigestIdentifies(a: Value, b: Value)
    requires DigestOf(a).Some? && DigestOf(b).Some?
    ensures DigestOf(a) == DigestOf(b) <==> Shown(a) == Shown(b)
  {
    if DigestOf(a) == DigestOf(b) {
      DomainsSeparate(a, b);
      match a {
        case Text(_) =>
        case Html(plain, html) =>
          FieldSplits(plain, b.plain, Field(html), Field(b.html));
          FieldSplits(html, b.html, [], []);
        case Rtf(plain, rtf) =>
          FieldSplits(plain, b.plain, Field(rtf), Field(b.rtf));
          FieldSplits(rtf, b.rtf, [], []);
        case Image(_, _, _) => ImagesInjective(a, b);
        case Files(paths) => FieldsInjective(TextsOf(paths), TextsOf(b.paths));
      }
    }
    if a.Files? && b.Files? {
      TextsIdentify(a.paths, b.paths);
    }
  }

  /** Among values whose paths are text, the digest is injective. */
  lemma DigestInjective(a: Value, b: Value)
    requires DigestOf(a).Some? && DigestOf(b).Some?
    requires Shown(a) == a && Shown(b) == b
    ensures DigestOf(a) == DigestOf(b) <==> a == b
  {
    DigestIdentifies(a, b);
  }

  /** Beyond them it is not: two different lists of one path, each a single byte that is not text. */
  lemma DigestConfuses()
    ensures var a, b := Files([[0x2F, 0xFF]]), Files([[0x2F, 0xFE]]);
            a != b && DigestOf(a).Some? && DigestOf(a) == DigestOf(b)
  {
    var a: Path, b: Path := [0x2F, 0xFF], [0x2F, 0xFE];
    BrokenByte(0xFF);
    BrokenByte(0xFE);
    assert TextsOf([a]) == TextsOf([b]);
    DigestIdentifies(Files([a]), Files([b]));
  }

  lemma BrokenByte(b: byte)
    requires b >= 0xF5
    ensures Lossy([0x2F, b]) == [0x2F] + REPLACEMENT
  {
    assert [0x2F, b][1..] == [b] && [b][1..] == [];
    assert [0x2F, b][..1] == [0x2F];
    assert Lossy([b]) == REPLACEMENT + Lossy([]);
  }
}
