/**
 * Byte-level repair of a Reuters-21578 SGML file before it is decoded and
 * handed to the XML parser (`ReutersParser.cleanup_sgml`).
 */
module Sgml {

  import Seqs

  type byte = b: int | 0 <= b < 256

  /** The bytes of an ASCII string. */
  function Ascii(s: string): (r: seq<byte>)
    requires forall i :: 0 <= i < |s| ==> s[i] as int < 128
    ensures |r| == |s|
    ensures forall i :: 0 <= i < |s| ==> r[i] == s[i] as int
    ensures forall b :: b in r ==> b < 128
  {
    seq(|s|, i requires 0 <= i < |s| => s[i] as int)
  }

  /** The one non-ASCII corruption: a stray Latin-1 u-umlaut. */
  const LatinUUmlaut: byte := 0xFC

  /** The ten known-bad byte patterns, deleted in this order. */
  const Broken: seq<seq<byte>> := [
    Ascii("&#1;"), Ascii("&#2;"), Ascii("&#3;"), [LatinUUmlaut], Ascii("&#5;"),
    Ascii("&#22;"), Ascii("&#27;"), Ascii("&#30;"), Ascii("&#31;"), Ascii("&#127;")
  ]

  /** The document-type line that every corpus file starts with. */
  const Doctype: seq<byte> := Ascii("<!DOCTYPE lewis SYSTEM \"lewis.dtd\">")
  /** Synthetic root element wrapped around the whole file. */
  const OpenTag: seq<byte> := Ascii("<document>")
  const CloseTag: seq<byte> := Ascii("</document>")

  /** `pat` occurs somewhere in `s`. */
  predicate Occurs(pat: seq<byte>, s: seq<byte>) {
    exists i :: 0 <= i <= |s| && OccursAt(pat, s, i)
  }

  /** `pat` occurs in `s` starting at index `i`. */
  predicate OccursAt(pat: seq<byte>, s: seq<byte>, i: int) {
    0 <= i && i + |pat| <= |s| && s[i..i + |pat|] == pat
  }

  /** An occurrence in the tail is an occurrence in the whole. */
  lemma OccursInTail(pat: seq<byte>, s: seq<byte>)
    requires |s| > 0
    ensures Occurs(pat, s[1..]) ==> Occurs(pat, s)
  {
    if Occurs(pat, s[1..]) {
      var t := s[1..];
      var i :| 0 <= i <= |t| && OccursAt(pat, t, i);
      assert i + |pat| <= |t| && t[i..i + |pat|] == pat;
      assert s[i + 1..i + 1 + |pat|] == t[i..i + |pat|];
      assert OccursAt(pat, s, i + 1);
    }
  }

  /**
   * `bytes.replace(pat, rep)`: a single left-to-right pass that replaces
   * every non-overlapping occurrence of `pat`.
   */
  function Replace(s: seq<byte>, pat: seq<byte>, rep: seq<byte>): (r: seq<byte>)
    requires |pat| > 0
    ensures !Occurs(pat, s) ==> r == s
    ensures forall b :: b in r ==> b in s || b in rep
    ensures |pat| == 1 && pat[0] !in rep ==> pat[0] !in r
    decreases |s|
  {
    if |s| < |pat| then s
    else if s[..|pat|] == pat then
      assert OccursAt(pat, s, 0);
      rep + Replace(s[|pat|..], pat, rep)
    else
      OccursInTail(pat, s);
      assert [s[0]] + s[1..] == s;
      [s[0]] + Replace(s[1..], pat, rep)
  }

  /** Every pattern of `pats` is non-empty, as `bytes.replace` needs for a deletion pass. */
  predicate NonEmptyPatterns(pats: seq<seq<byte>>) {
    forall i :: 0 <= i < |pats| ==> |pats[i]| > 0
  }

  /** Delete the occurrences of each pattern of `pats` in turn. */
  function DeleteAll(s: seq<byte>, pats: seq<seq<byte>>): (r: seq<byte>)
    requires NonEmptyPatterns(pats)
    ensures (forall i :: 0 <= i < |pats| ==> !Occurs(pats[i], s)) ==> r == s
    ensures forall b :: b in r ==> b in s
    ensures forall i :: 0 <= i < |pats| && |pats[i]| == 1 ==> pats[i][0] !in r
    decreases |pats|
  {
    if |pats| == 0 then s
    else DeleteAll(Replace(s, pats[0], []), pats[1..])
  }

  /**
   * `ReutersParser.cleanup_sgml`: delete the ten broken patterns, turn the
   * document-type line into an opening root tag and close the root at the end.
   */
  function CleanupSgml(chunk: seq<byte>): (r: seq<byte>)
    ensures |r| >= |CloseTag| && r[|r| - |CloseTag|..] == CloseTag
    ensures LatinUUmlaut !in r
    ensures forall b :: b in r ==> b in chunk || b < 128
    ensures (forall i :: 0 <= i < |Broken| ==> !Occurs(Broken[i], chunk))
            ==> r == Replace(chunk, Doctype, OpenTag) + CloseTag
    ensures (forall i :: 0 <= i < |Broken| ==> !Occurs(Broken[i], chunk)) && !Occurs(Doctype, chunk)
            ==> r == chunk + CloseTag
  {
    assert Broken[3] == [LatinUUmlaut];
    var deleted := DeleteAll(chunk, Broken);
    Replace(deleted, Doctype, OpenTag) + CloseTag
  }

  /** Deleting a one-byte pattern removes exactly the copies of that byte. */
  lemma {:induction false} DeleteByteIsWithout(s: seq<byte>, c: byte)
    ensures Replace(s, [c], []) == Seqs.Without(s, c)
    decreases |s|
  {
    if |s| > 0 {
      DeleteByteIsWithout(s[1..], c);
      assert s[..1] == [s[0]];
      if s[0] == c {
        assert s[1..] == s[|[c]|..];
      }
    }
  }

  /**
   * The scan of `bytes.replace`: bytes before the first occurrence of `pat`
   * are copied, that occurrence becomes `rep`, and the scan resumes after it.
   */
  lemma {:induction false} ReplaceFirstMatch(a: seq<byte>, b: seq<byte>, pat: seq<byte>, rep: seq<byte>)
    requires |pat| > 0
    requires forall i :: 0 <= i < |a| ==> !OccursAt(pat, a + pat + b, i)
    ensures Replace(a + pat + b, pat, rep) == a + rep + Replace(b, pat, rep)
    decreases |a|
  {
    var s := a + pat + b;
    if |a| == 0 {
      assert s == pat + b && s[..|pat|] == pat && s[|pat|..] == b;
      ReplaceAtMatch(s, pat, rep);
      assert a + rep == rep;
    } else {
      assert !OccursAt(pat, s, 0);
      ReplacePastByte(s, pat, rep);
      NoMatchInTail(a, b, pat);
      ReplaceFirstMatch(a[1..], b, pat, rep);
      ConsAssoc(s[0], a[1..], rep, Replace(b, pat, rep));
      assert [s[0]] + a[1..] == a;
    }
  }

  /** Dropping the first byte keeps `pat` out of the positions before its first occurrence. */
  lemma NoMatchInTail(a: seq<byte>, b: seq<byte>, pat: seq<byte>)
    requires |a| > 0
    requires forall i :: 0 <= i < |a| ==> !OccursAt(pat, a + pat + b, i)
    ensures (a + pat + b)[1..] == a[1..] + pat + b
    ensures forall i :: 0 <= i < |a| - 1 ==> !OccursAt(pat, a[1..] + pat + b, i)
  {
    var s := a + pat + b;
    var t := a[1..] + pat + b;
    assert s[1..] == t;
    forall i | 0 <= i < |a| - 1
      ensures !OccursAt(pat, t, i)
    {
      assert !OccursAt(pat, s, i + 1);
      assert t[i..i + |pat|] == s[i + 1..i + 1 + |pat|];
    }
  }

  lemma ConsAssoc(x: byte, p: seq<byte>, q: seq<byte>, r: seq<byte>)
    ensures [x] + (p + q + r) == [x] + p + q + r
  {
  }

  /** One step of `Replace` at a match. */
  lemma ReplaceAtMatch(s: seq<byte>, pat: seq<byte>, rep: seq<byte>)
    requires 0 < |pat| <= |s| && s[..|pat|] == pat
    ensures Replace(s, pat, rep) == rep + Replace(s[|pat|..], pat, rep)
  {
  }

  /** One step of `Replace` past a byte that starts no match. */
  lemma ReplacePastByte(s: seq<byte>, pat: seq<byte>, rep: seq<byte>)
    requires 0 < |pat| <= |s| && s[..|pat|] != pat
    ensures Replace(s, pat, rep) == [s[0]] + Replace(s[1..], pat, rep)
  {
  }

  /** The bytes of the two strings used below ('&' is 38, '#' is 35, '1' is 49, ';' is 59). */
  lemma AsciiEntities()
    ensures Ascii("&#1;") == [38, 35, 49, 59]
    ensures Ascii("&#&#1;1;") == [38, 35, 38, 35, 49, 59, 49, 59]
  {
  }

  /**
   * A single pass can assemble a new occurrence out of the pieces around a
   * deleted one: deleting `&#1;` from `&#&#1;1;` leaves `&#1;`.
   */
  lemma SinglePassCanReassemble()
    ensures Replace(Ascii("&#&#1;1;"), Ascii("&#1;"), []) == Ascii("&#1;")
  {
    AsciiEntities();
    ReassembleFromStart();
  }

  lemma ReassembleAtMatch()
    ensures Replace([38, 35, 49, 59, 49, 59], [38, 35, 49, 59], []) == [49, 59]
  {
    var s: seq<byte> := [38, 35, 49, 59, 49, 59];
    ReplaceAtMatch(s, [38, 35, 49, 59], []);
    assert s[4..] == [49, 59];
  }

  lemma ReassembleFromSecond()
    ensures Replace([35, 38, 35, 49, 59, 49, 59], [38, 35, 49, 59], []) == [35, 49, 59]
  {
    var s: seq<byte> := [35, 38, 35, 49, 59, 49, 59];
    ReassembleAtMatch();
    assert s[..4][0] != 38 && s[1..] == [38, 35, 49, 59, 49, 59];
    ReplacePastByte(s, [38, 35, 49, 59], []);
  }

  lemma ReassembleFromStart()
    ensures Replace([38, 35, 38, 35, 49, 59, 49, 59], [38, 35, 49, 59], []) == [38, 35, 49, 59]
  {
    var s: seq<byte> := [38, 35, 38, 35, 49, 59, 49, 59];
    ReassembleFromSecond();
    assert s[..4][2] != 49 && s[1..] == [35, 38, 35, 49, 59, 49, 59];
    ReplacePastByte(s, [38, 35, 49, 59], []);
  }
}
