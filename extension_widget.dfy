/**
 * FileNameWithExtensionWidget.js: a text input that drops a trailing extension as the
 * user types. The extension is escaped before it is put into a regular expression, so
 * the expression matches the extension literally, at the end, ignoring case.
 */
module ExtensionWidget {
  import opened Wrappers
  import opened Text

  /** `options.extension || ""`. */
  function ExtensionOption(extension: Option<string>): string {
    match extension
    case Some(e) => e
    case None => ""
  }

  /** The characters the escaping step puts a backslash in front of. */
  predicate IsRegExpSyntax(c: char) {
    c in ".*+?^${}()|[]\\"
  }

  /**
   * `s.replace(/[.*+?^${}()|[\]\\]/g, '\\$&')`: each character is kept, at most one
   * backslash is put in front of it, and text without syntax characters is left as is.
   */
  function EscapeRegExp(s: string): (r: string)
    ensures |s| <= |r| <= 2 * |s|
    ensures (forall i :: 0 <= i < |s| ==> !IsRegExpSyntax(s[i])) ==> r == s
  {
    if s == [] then []
    else
      assert forall i :: 1 <= i < |s| ==> s[i] == s[1..][i - 1];
      (if IsRegExpSyntax(s[0]) then ['\\', s[0]] else [s[0]]) + EscapeRegExp(s[1..])
  }

  /**
   * The literal text a pattern stands for when it is made only of ordinary characters and
   * backslash-escaped syntax characters; None for any other pattern (one with an operator,
   * a class escape such as `\d`, or a dangling backslash).
   */
  function LiteralOf(pattern: string): Option<string> {
    if pattern == [] then Some([])
    else if pattern[0] == '\\' then
      if |pattern| >= 2 && IsRegExpSyntax(pattern[1]) then
        match LiteralOf(pattern[2..])
        case Some(rest) => Some([pattern[1]] + rest)
        case None => None
      else None
    else if IsRegExpSyntax(pattern[0]) then None
    else
      match LiteralOf(pattern[1..])
      case Some(rest) => Some([pattern[0]] + rest)
      case None => None
  }

  /** Escaping turns any extension into a pattern that stands for exactly that extension. */
  lemma {:induction false} EscapedIsLiteral(s: string)
    ensures LiteralOf(EscapeRegExp(s)) == Some(s)
  {
    if s != [] {
      EscapedIsLiteral(s[1..]);
      var head := if IsRegExpSyntax(s[0]) then ['\\', s[0]] else [s[0]];
      var p := head + EscapeRegExp(s[1..]);
      if IsRegExpSyntax(s[0]) {
        assert p[2..] == EscapeRegExp(s[1..]);
      } else {
        assert p[1..] == EscapeRegExp(s[1..]);
      }
      assert s == [s[0]] + s[1..];
    }
  }

  /**
   * `handleChange`: the value emitted for the typed text is the text with the extension
   * removed from its end, compared case-insensitively and character for character.
   */
  function HandleChange(extension: Option<string>, input: string): (r: string)
    ensures r == StripTrailingCI(input, ExtensionOption(extension))
  {
    var ext := ExtensionOption(extension);
    var pattern := EscapeRegExp(ext);
    EscapedIsLiteral(ext);
    StripTrailingCI(input, LiteralOf(pattern).value)
  }

  /**
   * The emitted value is a prefix of the input: the input less one trailing occurrence of
   * the extension when it ends with it (in any case), the input itself otherwise, and
   * always the input itself when there is no extension.
   */
  lemma HandleChangeShape(extension: Option<string>, input: string)
    ensures var ext := ExtensionOption(extension);
      var r := HandleChange(extension, input);
      && StartsWith(input, r)
      && (EndsWithCI(input, ext) ==> r == input[..|input| - |ext|])
      && (!EndsWithCI(input, ext) ==> r == input)
      && (ext == "" ==> r == input)
  {
  }

  /** A stem followed by the extension gives back exactly the stem, even when the stem itself ends with it. */
  lemma HandleChangeStripsOnce(extension: Option<string>, stem: string)
    ensures HandleChange(extension, stem + ExtensionOption(extension)) == stem
  {
  }

  /** The extension's dot is matched as a dot: ".pdf" does not strip "xpdf", and "a.pdf.pdf" loses one ".pdf". */
  lemma HandleChangeExamples()
    ensures HandleChange(Some(".pdf"), "xpdf") == "xpdf"
    ensures HandleChange(Some(".pdf"), "a.pdf.pdf") == "a.pdf"
    ensures HandleChange(None, "Job.pdf") == "Job.pdf"
  {
    assert !EndsWithCI("xpdf", ".pdf") by {
      assert ToLower("xpdf")[0] == 'x';
    }
    assert EndsWithCI("a.pdf.pdf", ".pdf") by {
      assert ToLower("a.pdf.pdf")[5..] == ".pdf";
    }
    assert "a.pdf.pdf"[..5] == "a.pdf";
    StripEmptySuffix("Job.pdf");
  }
}
