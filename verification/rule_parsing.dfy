/**
 * Splitting of one rule input parameter, already separated from its
 * neighbours, into a name and a value (`name=value`).
 *
 * The name is the text before the first `=`, trimmed the way Java's
 * `String.trim` trims (every character up to U+0020 counts as blank); the
 * value is the raw text after that `=`, with one leading `$` (the marker of an
 * interactive variable) removed.
 */
module RuleParsing {
  import opened Wrappers

  datatype RuleInputParameter = RuleInputParameter(name: string, value: string)

  /**
   * The three ways the split fails. Each is reported as an illegal-argument
   * exception carrying the message `Message` gives.
   */
  datatype ParseError = NullOrEmpty | MissingEqualSign | EmptyValue

  function Message(e: ParseError): string {
    match e
    case NullOrEmpty => "null or empty parameter"
    case MissingEqualSign => "missing equal sign in given input parameter"
    case EmptyValue => "emptyParamVal"
  }

  /** Java's `trim` removes every character whose code is at most that of a space. */
  predicate IsBlank(c: char) {
    c <= ' '
  }

  predicate AllBlank(s: string) {
    forall i :: 0 <= i < |s| ==> IsBlank(s[i])
  }

  /** Number of blank characters at the start of `s`. */
  function LeadingBlanks(s: string): (n: nat)
    ensures n <= |s|
    ensures AllBlank(s[..n])
    ensures n < |s| ==> !IsBlank(s[n])
  {
    if |s| == 0 || !IsBlank(s[0]) then 0
    else
      var k := LeadingBlanks(s[1..]);
      assert s[1..][..k] == s[1..k + 1];
      1 + k
  }

  /** Number of blank characters at the end of `s`. */
  function TrailingBlanks(s: string): (n: nat)
    ensures n <= |s|
    ensures AllBlank(s[|s| - n..])
    ensures n < |s| ==> !IsBlank(s[|s| - n - 1])
  {
    if |s| == 0 || !IsBlank(s[|s| - 1]) then 0
    else
      var k := TrailingBlanks(s[..|s| - 1]);
      assert s[..|s| - 1][|s| - 1 - k..] == s[|s| - 1 - k..|s| - 1];
      1 + k
  }

  /**
   * Java's `String.trim`: the slice of `s` left after removing blanks at both
   * ends. `s` is the trimmed text surrounded by blanks only, and the trimmed
   * text neither starts nor ends with a blank.
   */
  function Trim(s: string): (r: string)
    ensures |r| <= |s|
    ensures |r| > 0 ==> !IsBlank(r[0]) && !IsBlank(r[|r| - 1])
    ensures LeadingBlanks(s) + |r| <= |s|
    ensures r == s[LeadingBlanks(s)..LeadingBlanks(s) + |r|]
    ensures AllBlank(s[LeadingBlanks(s) + |r|..])
  {
    var a := LeadingBlanks(s);
    var rest := s[a..];
    var b := TrailingBlanks(rest);
    var r := s[a..|s| - b];
    assert AllBlank(s[|s| - b..]) by {
      assert s[|s| - b..] == rest[|rest| - b..];
    }
    assert |r| > 0 ==> !IsBlank(r[0]) && !IsBlank(r[|r| - 1]) by {
      if |r| > 0 {
        assert r[0] == s[a];
        assert r[|r| - 1] == rest[|rest| - b - 1];
      }
    }
    r
  }

  /** Trimming only removes characters, so it cannot introduce one. */
  lemma TrimKeepsAbsentChar(s: string, c: char)
    requires c !in s
    ensures c !in Trim(s)
  {
    var r := Trim(s);
    var a := LeadingBlanks(s);
    forall i | 0 <= i < |r|
      ensures r[i] != c
    {
      assert r[i] == s[a + i];
    }
  }

  /** Position of the first `c` in `s`, or -1 (Java's `String.indexOf`). */
  function IndexOfChar(s: string, c: char): (r: int)
    ensures -1 <= r < |s|
    ensures r == -1 <==> c !in s
    ensures r >= 0 ==> s[r] == c && c !in s[..r]
  {
    if |s| == 0 then -1
    else if s[0] == c then 0
    else
      var k := IndexOfChar(s[1..], c);
      if k == -1 then -1
      else
        assert s[..k + 1] == [s[0]] + s[1..][..k];
        k + 1
  }

  /** The first `=` is the last character exactly when no `=` precedes a final one. */
  lemma FirstEqualSignIsLast(p: string)
    requires |p| > 0
    ensures IndexOfChar(p, '=') == |p| - 1
            <==> p[|p| - 1] == '=' && '=' !in p[..|p| - 1]
  {
  }

  /** The value with one interactive-variable marker `$` removed, if it has one. */
  function StripDollar(v: string): (r: string)
    ensures |v| > 0 && v[0] == '$' ==> v == "$" + r
    ensures !(|v| > 0 && v[0] == '$') ==> r == v
  {
    if |v| > 0 && v[0] == '$' then v[1..] else v
  }

  /**
   * Splits `parameter` on its first `=`. A missing (null) or empty parameter,
   * one with no `=`, and one whose first `=` is its last character are
   * rejected; otherwise the name is the trimmed text before the `=` and the
   * value the text after it, less one leading `$`. Each rejection is the
   * illegal-argument exception whose message `Message` gives for its error:
   * `null or empty parameter`, `missing equal sign in given input parameter`
   * and `emptyParamVal`, in that order of checking.
   */
  function ParseInputParameterForNameAndValue(parameter: Option<string>)
    : (r: Result<RuleInputParameter, ParseError>)
    ensures (parameter.None? || parameter == Some(""))
            <==> r == Failure(NullOrEmpty)
    ensures (parameter.Some? && parameter.value != "" && '=' !in parameter.value)
            <==> r == Failure(MissingEqualSign)
    ensures (parameter.Some? && |parameter.value| > 0
             && parameter.value[|parameter.value| - 1] == '='
             && '=' !in parameter.value[..|parameter.value| - 1])
            <==> r == Failure(EmptyValue)
    ensures r.Success? ==> '=' in parameter.value && '=' !in r.value.name
  {
    if parameter.None? || parameter.value == "" then
      Failure(NullOrEmpty)
    else
      var p := parameter.value;
      var idx := IndexOfChar(p, '=');
      FirstEqualSignIsLast(p);
      if idx == -1 then
        Failure(MissingEqualSign)
      else
        // When `=` is the last character the source builds a parameter with an
        // empty value and discards it; control falls through to the check below.
        var name := Trim(p[..idx]);
        var value := p[idx + 1..];
        if value == "" then
          Failure(EmptyValue)
        else
          TrimKeepsAbsentChar(p[..idx], '=');
          Success(RuleInputParameter(name, StripDollar(value)))
  }

  /**
   * The same split with the no-value branch returning the parameter it
   * builds: the untrimmed name and an empty value.
   */
  function ParseInputParameterKeepingEmptyValue(parameter: Option<string>)
    : (r: Result<RuleInputParameter, ParseError>)
    ensures r.Failure? <==> parameter.None? || parameter == Some("") || '=' !in parameter.value
    ensures r.Success? && r.value.value == "" ==> '=' !in r.value.name
  {
    if parameter.None? || parameter.value == "" then
      Failure(NullOrEmpty)
    else
      var p := parameter.value;
      var idx := IndexOfChar(p, '=');
      if idx == -1 then
        Failure(MissingEqualSign)
      else if idx + 1 == |p| then
        Success(RuleInputParameter(p[..idx], ""))
      else
        ParseInputParameterForNameAndValue(parameter)
  }

  /** Trimming twice is trimming once. */
  lemma TrimIdempotent(s: string)
    ensures Trim(Trim(s)) == Trim(s)
  {
    var r := Trim(s);
    assert LeadingBlanks(r) == 0;
    assert r[0..] == r;
    assert TrailingBlanks(r) == 0;
    assert r[..|r|] == r;
  }

  /**
   * A parameter whose first `=` sits at `k` with at least one character after
   * it parses to the trimmed prefix and the `$`-stripped suffix.
   */
  lemma ParseAtFirstEqualSign(p: string, k: nat)
    requires k + 1 < |p| && p[k] == '=' && '=' !in p[..k]
    ensures ParseInputParameterForNameAndValue(Some(p))
            == Success(RuleInputParameter(Trim(p[..k]), StripDollar(p[k + 1..])))
  {
    assert IndexOfChar(p, '=') == k;
  }

  /** With no `=` in `raw`, the first `=` of `raw + "=" + rest` is the one after `raw`. */
  lemma SplitAfterName(raw: string, rest: string)
    requires '=' !in raw
    ensures var p := raw + "=" + rest;
            p[|raw|] == '=' && p[..|raw|] == raw && p[|raw| + 1..] == rest
  {
    var p := raw + "=" + rest;
    assert p[..|raw|] == raw;
    assert p[|raw| + 1..] == rest;
  }

  /**
   * Round trip, parse then rebuild: on success the input is the raw name
   * (free of `=`, trimming to the parsed name), the `=`, possibly the one
   * stripped `$`, and the parsed value.
   */
  lemma ParseRoundTrip(p: string)
    requires ParseInputParameterForNameAndValue(Some(p)).Success?
    ensures var r := ParseInputParameterForNameAndValue(Some(p)).value;
            var raw := p[..IndexOfChar(p, '=')];
            && '=' !in raw
            && Trim(raw) == r.name
            && (p == raw + "=" + r.value || p == raw + "=$" + r.value)
  {
    var k := IndexOfChar(p, '=');
    FirstEqualSignIsLast(p);
    ParseAtFirstEqualSign(p, k);
    Reassemble(p, k);
  }

  /** A string split at position `k` of an `=` is the prefix, the `=`, an
      optional `$`, and the `$`-stripped suffix. */
  lemma Reassemble(p: string, k: nat)
    requires k + 1 < |p| && p[k] == '='
    ensures p == p[..k] + "=" + StripDollar(p[k + 1..])
            || p == p[..k] + "=$" + StripDollar(p[k + 1..])
  {
    var v := p[k + 1..];
    assert p == p[..k] + "=" + v;
    if v[0] == '$' {
      assert v == "$" + v[1..];
      assert p == p[..k] + "=$" + v[1..];
    }
  }

  /**
   * Round trip, build then parse, for a value without the `$` marker: the
   * name comes back trimmed and the value verbatim, later `=` signs included.
   */
  lemma ParseOfUnmarkedValue(raw: string, value: string)
    requires '=' !in raw
    requires value != "" && value[0] != '$'
    ensures ParseInputParameterForNameAndValue(Some(raw + "=" + value))
            == Success(RuleInputParameter(Trim(raw), value))
  {
    SplitAfterName(raw, value);
    ParseAtFirstEqualSign(raw + "=" + value, |raw|);
  }

  /**
   * Round trip, build then parse, for a value marked with `$`: exactly one
   * `$` is removed, and `name=$` yields an empty value.
   */
  lemma ParseOfMarkedValue(raw: string, value: string)
    requires '=' !in raw
    ensures ParseInputParameterForNameAndValue(Some(raw + "=$" + value))
            == Success(RuleInputParameter(Trim(raw), value))
  {
    assert raw + "=$" + value == raw + "=" + ("$" + value);
    SplitAfterName(raw, "$" + value);
    ParseAtFirstEqualSign(raw + "=" + ("$" + value), |raw|);
    assert ("$" + value)[1..] == value;
  }

  /** `a=$` yields an empty value. */
  lemma LoneDollarGivesEmptyValue()
    ensures ParseInputParameterForNameAndValue(Some("a=$"))
            == Success(RuleInputParameter("a", ""))
  {
    var p := "a=$";
    assert p[..1] == "a";
    assert p[2..] == "$";
    ParseAtFirstEqualSign(p, 1);
    TrimOfUnpadded("a");
  }

  /** `a=$$x` loses only the first `$`. */
  lemma DoubleDollarKeepsOne()
    ensures ParseInputParameterForNameAndValue(Some("a=$$x"))
            == Success(RuleInputParameter("a", "$x"))
  {
    var p := "a=$$x";
    assert p[..1] == "a";
    assert p[2..] == "$$x";
    assert "$$x"[1..] == "$x";
    ParseAtFirstEqualSign(p, 1);
    TrimOfUnpadded("a");
  }

  /** The name is trimmed, the value is not, and later `=` signs stay in the value. */
  lemma LaterEqualSignsStayInValue()
    ensures ParseInputParameterForNameAndValue(Some(" a =b=c "))
            == Success(RuleInputParameter("a", "b=c "))
  {
    var p := " a =b=c ";
    assert p[..3] == " a ";
    assert p[4..] == "b=c ";
    ParseAtFirstEqualSign(p, 3);
    PaddedOneLetterName();
  }

  /**
   * Blanks around a text that starts and ends with a non-blank are exactly
   * what `Trim` removes: the text comes back unchanged.
   */
  lemma TrimOfPadded(pre: string, s: string, post: string)
    requires AllBlank(pre) && AllBlank(post)
    requires |s| > 0 && !IsBlank(s[0]) && !IsBlank(s[|s| - 1])
    ensures Trim(pre + s + post) == s
  {
    var p := pre + s + post;
    var n := LeadingBlanks(p);
    var r := Trim(p);
    assert p[|pre|..|pre| + |s|] == s;
  }

  /** One blank on each side of a one-letter name is trimmed away. */
  lemma PaddedOneLetterName()
    ensures Trim(" a ") == "a"
  {
    assert " a " == [' '] + "a" + [' '];
    TrimOfPadded([' '], "a", [' ']);
  }

  /** A name and value given without surrounding blanks are not altered by `Trim`. */
  lemma TrimOfUnpadded(s: string)
    requires |s| > 0 && !IsBlank(s[0]) && !IsBlank(s[|s| - 1])
    ensures Trim(s) == s
  {
    assert LeadingBlanks(s) == 0;
    assert s[0..] == s;
    assert TrailingBlanks(s) == 0;
    assert s[..|s|] == s;
  }

  /**
   * The parse as written rejects `a=`: the no-value branch builds
   * `("a", "")` but does not return it. Returning it yields that parameter.
   */
  lemma NameWithoutValueRejected()
    ensures ParseInputParameterForNameAndValue(Some("a="))
            == Failure(EmptyValue)
    ensures ParseInputParameterKeepingEmptyValue(Some("a="))
            == Success(RuleInputParameter("a", ""))
  {
    assert "a="[..1] == "a";
  }

  /**
   * For every name free of `=`, the parse as written rejects the name
   * followed by a final `=`, and returning the no-value parameter yields
   * that name, untrimmed, with an empty value.
   */
  lemma BareNameWithEqualSign(raw: string)
    requires '=' !in raw
    ensures ParseInputParameterForNameAndValue(Some(raw + "="))
            == Failure(EmptyValue)
    ensures ParseInputParameterKeepingEmptyValue(Some(raw + "="))
            == Success(RuleInputParameter(raw, ""))
  {
    var p := raw + "=";
    assert p == raw + "=" + "";
    SplitAfterName(raw, "");
    assert p[..|p| - 1] == raw;
    FirstEqualSignIsLast(p);
  }

  /**
   * Returning the no-value parameter changes nothing else: wherever the parse
   * as written succeeds, both agree, and every parameter holding an `=` is
   * accepted.
   */
  lemma KeepingEmptyValueExtendsParse(parameter: Option<string>)
    ensures ParseInputParameterForNameAndValue(parameter).Success?
            ==> ParseInputParameterKeepingEmptyValue(parameter)
                == ParseInputParameterForNameAndValue(parameter)
    ensures parameter.Some? && '=' in parameter.value
            ==> ParseInputParameterKeepingEmptyValue(parameter).Success?
  {
  }
}
