/**
 * The two string operations the narrative builder relies on: Python's
 * `str.strip()` with no argument, and the `.docx` file-name expression of
 * the download button.
 */
module Text {

  /** Python's `str.isspace` for one character (the characters `str.strip()` removes). */
  predicate IsSpace(c: char) {
    || c == ' '
    || ('\t' <= c <= '\r')
    || ('\U{1C}' <= c <= '\U{1F}')
    || c == '\U{85}' || c == '\U{A0}' || c == '\U{1680}'
    || ('\U{2000}' <= c <= '\U{200A}')
    || c == '\U{2028}' || c == '\U{2029}' || c == '\U{202F}' || c == '\U{205F}' || c == '\U{3000}'
  }

  /** `s` with its leading whitespace removed. */
  function TrimStart(s: string): (r: string)
    ensures |r| <= |s|
  {
    if |s| > 0 && IsSpace(s[0]) then TrimStart(s[1..]) else s
  }

  /** `TrimStart` drops exactly the leading run of whitespace. */
  lemma {:induction false} TrimStartSpec(s: string)
    ensures var r := TrimStart(s);
      && |r| <= |s| && r == s[|s| - |r|..]
      && (forall i :: 0 <= i < |s| - |r| ==> IsSpace(s[i]))
      && (r == [] || !IsSpace(r[0]))
  {
    if |s| > 0 && IsSpace(s[0]) {
      TrimStartSpec(s[1..]);
    }
  }

  /** `s` with its trailing whitespace removed. */
  function TrimEnd(s: string): (r: string)
    ensures |r| <= |s|
  {
    if |s| > 0 && IsSpace(s[|s| - 1]) then TrimEnd(s[..|s| - 1]) else s
  }

  /** `TrimEnd` drops exactly the trailing run of whitespace. */
  lemma {:induction false} TrimEndSpec(s: string)
    ensures var r := TrimEnd(s);
      && |r| <= |s| && r == s[..|r|]
      && (forall i :: |r| <= i < |s| ==> IsSpace(s[i]))
      && (r == [] || !IsSpace(r[|r| - 1]))
  {
    if |s| > 0 && IsSpace(s[|s| - 1]) {
      TrimEndSpec(s[..|s| - 1]);
    }
  }

  /** How many whitespace characters `s` starts with. */
  function LeadingSpaces(s: string): nat {
    |s| - |TrimStart(s)|
  }

  /** Python's `s.strip()`. */
  function Strip(s: string): string {
    TrimEnd(TrimStart(s))
  }

  /**
   * What `s.strip()` returns: the longest middle slice of `s` that neither
   * starts nor ends with whitespace. Everything cut off is whitespace, and
   * the result is empty exactly when `s` is all whitespace.
   */
  lemma StripSpec(s: string)
    ensures var r := Strip(s);
      && LeadingSpaces(s) + |r| <= |s|
      && r == s[LeadingSpaces(s)..LeadingSpaces(s) + |r|]
      && (forall i :: 0 <= i < LeadingSpaces(s) ==> IsSpace(s[i]))
      && (forall i :: LeadingSpaces(s) + |r| <= i < |s| ==> IsSpace(s[i]))
      && (r == [] || (!IsSpace(r[0]) && !IsSpace(r[|r| - 1])))
      && (r == [] <==> forall i :: 0 <= i < |s| ==> IsSpace(s[i]))
  {
    var t := TrimStart(s);
    var r := TrimEnd(t);
    TrimStartSpec(s);
    TrimEndSpec(t);
    var lead := |s| - |t|;
    assert LeadingSpaces(s) == lead;
    assert t == s[lead..];
    assert r == s[lead..lead + |r|] by {
      assert r == t[..|r|];
    }
    forall i | lead + |r| <= i < |s| ensures IsSpace(s[i]) {
      assert s[i] == t[i - lead];
    }
    if r != [] {
      assert r[0] == s[lead];
    }
  }

  /** Stripping is idempotent: a stripped string has nothing left to strip. */
  lemma StripIdempotent(s: string)
    ensures Strip(Strip(s)) == Strip(s)
  {
    StripSpec(s);
    var r := Strip(s);
    assert TrimStart(r) == r;
    assert TrimEnd(r) == r;
  }

  /** Python's `c.lower()` on ASCII letters; every other character is kept. */
  function LowerChar(c: char): char {
    if 'A' <= c <= 'Z' then (c as int - 'A' as int + 'a' as int) as char else c
  }

  function Lower(s: string): string {
    seq(|s|, i requires 0 <= i < |s| => LowerChar(s[i]))
  }

  /** `name.lower().endswith(".docx")` */
  predicate EndsWithDocx(name: string) {
    var l := Lower(name);
    |l| >= 5 && l[|l| - 5..] == ".docx"
  }

  /**
   * The download file name: `name` itself when it already ends in ".docx"
   * in any letter case, otherwise `name` followed by ".docx". The result
   * always ends in ".docx" (case-insensitively) and always starts with `name`.
   */
  function DocxFileName(name: string): (r: string)
    ensures EndsWithDocx(r)
    ensures name <= r
    ensures EndsWithDocx(name) ==> r == name
    ensures !EndsWithDocx(name) ==> r[|name|..] == ".docx"
  {
    if EndsWithDocx(name) then name
    else
      var r := name + ".docx";
      assert Lower(r)[|r| - 5..] == ".docx";
      r
  }

  /** Normalising a file name twice is the same as normalising it once. */
  lemma DocxFileNameIdempotent(name: string)
    ensures DocxFileName(DocxFileName(name)) == DocxFileName(name)
  {
  }

  /** The case-insensitive check in action: an upper-case suffix is kept as it is. */
  lemma DocxFileNameExamples()
    ensures DocxFileName("Narrative.DOCX") == "Narrative.DOCX"
    ensures DocxFileName("Narrative") == "Narrative.docx"
    ensures DocxFileName("") == ".docx"
  {
    assert Lower("Narrative.DOCX")[9..] == ".docx";
    assert !EndsWithDocx("Narrative") by {
      assert Lower("Narrative")[4] == 'a';
    }
  }
}
