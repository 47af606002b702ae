/** File paths as the operating system has them, and the text that stands for them on the wire
    (`to_string_lossy`): each maximal run of bytes that cannot start a character becomes U+FFFD. */
module LossyText {
  import opened Bytes

  /** Bytes of the character `s` starts with, or 0 when it starts with none (section 4 of RFC 3629). */
  function CharacterWidth(s: seq<byte>): (width: nat)
    ensures width <= |s| && width <= 4
  {
    if s == [] then 0
    else if s[0] <= 0x7F then 1
    else if 0xC2 <= s[0] <= 0xDF then if |s| >= 2 && Continuation(s[1]) then 2 else 0
    else if 0xE0 <= s[0] <= 0xEF then
      if SecondFits(s) && |s| >= 3 && Continuation(s[2]) then 3 else 0
    else if 0xF0 <= s[0] <= 0xF4 then
      if SecondFits(s) && |s| >= 4 && Continuation(s[2]) && Continuation(s[3]) then 4 else 0
    else 0
  }

  /** The second byte can follow the first byte of a character of three or four bytes. */
  predicate SecondFits(s: seq<byte>)
    requires s != []
  {
    && |s| >= 2 && Continuation(s[1])
    && (s[0] == 0xE0 ==> s[1] >= 0xA0) && (s[0] == 0xED ==> s[1] <= 0x9F)
    && (s[0] == 0xF0 ==> s[1] >= 0x90) && (s[0] == 0xF4 ==> s[1] <= 0x8F)
  }

  /** Bytes replaced at once: as far as a character could have started. */
  function BrokenWidth(s: seq<byte>): (width: nat)
    requires s != []
    ensures 1 <= width <= |s|
  {
    if 0xE0 <= s[0] <= 0xEF && SecondFits(s) then 2
    else if 0xF0 <= s[0] <= 0xF4 && SecondFits(s) then
      if |s| >= 3 && Continuation(s[2]) then 3 else 2
    else 1
  }

  const REPLACEMENT: seq<byte> := [0xEF, 0xBF, 0xBD]

  function Lossy(s: seq<byte>): seq<byte>
    decreases |s|
  {
    if s == [] then []
    else
      var width := CharacterWidth(s);
      if width > 0 then s[..width] + Lossy(s[width..])
      else REPLACEMENT + Lossy(s[BrokenWidth(s)..])
  }

  lemma WellFormedStep(s: seq<byte>)
    ensures WellFormed(s) <==> s == [] || (CharacterWidth(s) > 0 && WellFormed(s[CharacterWidth(s)..]))
  {
  }

  lemma CharacterStays(s: seq<byte>, rest: seq<byte>)
    requires CharacterWidth(s) > 0
    ensures CharacterWidth(s[..CharacterWidth(s)] + rest) == CharacterWidth(s)
  {
  }

  lemma CharacterThen(s: seq<byte>, rest: seq<byte>)
    requires CharacterWidth(s) == |s| > 0 && WellFormed(rest)
    ensures WellFormed(s + rest)
  {
    CharacterStays(s, rest);
    assert s[..|s|] == s;
    assert (s + rest)[|s|..] == rest;
    WellFormedStep(s + rest);
  }

  lemma {:induction false} LossyIsText(s: seq<byte>)
    ensures WellFormed(Lossy(s))
    decreases |s|
  {
    if s != [] {
      var width := CharacterWidth(s);
      if width > 0 {
        LossyIsText(s[width..]);
        CharacterStays(s, []);
        assert s[..width] + [] == s[..width];
        CharacterThen(s[..width], Lossy(s[width..]));
      } else {
        LossyIsText(s[BrokenWidth(s)..]);
        CharacterThen(REPLACEMENT, Lossy(s[BrokenWidth(s)..]));
      }
    }
  }

  lemma {:induction false} TextStays(s: seq<byte>)
    requires WellFormed(s)
    ensures Lossy(s) == s
    decreases |s|
  {
    WellFormedStep(s);
    if s != [] {
      TextStays(s[CharacterWidth(s)..]);
    }
  }

  /** The conversion changes exactly what is not well-formed text. */
  lemma LossyIdentityIff(s: seq<byte>)
    ensures Lossy(s) == s <==> WellFormed(s)
  {
    LossyIsText(s);
    if WellFormed(s) {
      TextStays(s);
    }
  }

  /** A path, as bytes; the text that stands for it fits in memory. */
  type Path = p: seq<byte> | |Lossy(p)| <= MAX_LENGTH

  function TextOf(path: Path): (text: Text)
    ensures text == Lossy(path)
  {
    LossyIsText(path);
    Lossy(path)
  }

  function PathOf(text: Text): (path: Path)
    ensures path == text && TextOf(path) == text
  {
    TextStays(text);
    text
  }

  function TextsOf(paths: seq<Path>): (texts: seq<Text>)
    ensures |texts| == |paths| && forall i :: 0 <= i < |paths| ==> texts[i] == TextOf(paths[i])
  {
    if paths == [] then [] else [TextOf(paths[0])] + TextsOf(paths[1..])
  }

  function PathsOf(texts: seq<Text>): (paths: seq<Path>)
    ensures |paths| == |texts| && forall i :: 0 <= i < |texts| ==> paths[i] == texts[i]
  {
    if texts == [] then [] else [PathOf(texts[0])] + PathsOf(texts[1..])
  }

  predicate AllText(paths: seq<Path>) {
    forall p :: p in paths ==> WellFormed(p)
  }

  /** The texts of some paths are the paths exactly when all of them are text. */
  lemma TextsArePathsIff(paths: seq<Path>)
    ensures PathsOf(TextsOf(paths)) == paths <==> AllText(paths)
  {
    forall i | 0 <= i < |paths| ensures PathsOf(TextsOf(paths))[i] == paths[i] <==> WellFormed(paths[i]) {
      LossyIdentityIff(paths[i]);
    }
    if PathsOf(TextsOf(paths)) == paths {
      forall p | p in paths ensures WellFormed(p) {
        var i :| 0 <= i < |paths| && paths[i] == p;
      }
    }
  }

  lemma TextsOfPaths(texts: seq<Text>)
    ensures TextsOf(PathsOf(texts)) == texts && AllText(PathsOf(texts))
  {
    forall i | 0 <= i < |texts| ensures TextsOf(PathsOf(texts))[i] == texts[i] {
      assert PathsOf(texts)[i] == PathOf(texts[i]);
    }
  }

  /** Unix paths stay absolute or relative. */
  lemma RootStays(s: seq<byte>)
    ensures Lossy(s) != [] && Lossy(s)[0] == 0x2F <==> s != [] && s[0] == 0x2F
  {
  }
}
