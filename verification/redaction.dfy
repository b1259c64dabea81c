/** Removing credentials from log text. */
module Redaction {
  import opened Characters

  const REDACTED := "[redacted]"

  /** How far a marker's value reaches: to the end of the line, or to the next separator. */
  datatype MarkerKind = LineValue | WordValue

  datatype Marker = Marker(text: string, kind: MarkerKind)

  const MARKERS: seq<Marker> := [
    Marker("authorization:", LineValue),
    Marker("cookie:", LineValue),
    Marker("set-cookie:", LineValue),
    Marker("access_key=", WordValue),
    Marker("bearer ", WordValue),
    Marker("api_key=", WordValue),
    Marker("apikey=", WordValue),
    Marker("credential=", WordValue),
    Marker("key=", WordValue),
    Marker("password=", WordValue),
    Marker("secret=", WordValue),
    Marker("sig=", WordValue),
    Marker("signature=", WordValue),
    Marker("token=", WordValue)]

  predicate IsLineBreak(c: char) {
    c == '\r' || c == '\n'
  }

  predicate IsDelimiter(kind: MarkerKind, c: char) {
    match kind
    case LineValue => IsLineBreak(c)
    case WordValue => White(c) || c in "&,;\"'"
  }

  /** The characters at which values end, by their code points. */
  lemma DelimiterIff(kind: MarkerKind, c: char)
    ensures IsDelimiter(kind, c) <==>
              if kind == LineValue then c as int in {0x0A, 0x0D}
              else c as int in WHITE_SPACE + {0x22, 0x26, 0x27, 0x2C, 0x3B}
  {
    WhiteIff(c);
  }

  /** The marker stands at position `i`, in any mixture of ASCII cases. */
  predicate Occurs(marker: string, s: string, i: nat) {
    i + |marker| <= |s| && forall k :: 0 <= k < |marker| ==> LowerChar(s[i + k]) == marker[k]
  }

  /** Whatever letters of it are capital. */
  lemma OccursIff(marker: string, s: string, i: nat)
    requires forall k :: 0 <= k < |marker| ==> !('A' <= marker[k] <= 'Z')
    ensures Occurs(marker, s, i) <==>
              i + |marker| <= |s| && forall k :: 0 <= k < |marker| ==> SameLetter(s[i + k], marker[k])
  {
    if i + |marker| <= |s| {
      forall k | 0 <= k < |marker| ensures LowerChar(s[i + k]) == marker[k] <==> SameLetter(s[i + k], marker[k]) {
        LowerCharIff(s[i + k], marker[k]);
      }
      hide LowerChar, SameLetter;
    }
  }

  /** The first occurrence at or after `from`, or the length when there is none. */
  function Find(marker: string, s: string, from: nat): (i: nat)
    requires from <= |s|
    ensures from <= i <= |s|
    ensures i < |s| ==> Occurs(marker, s, i)
    ensures forall j: nat :: from <= j < i ==> !Occurs(marker, s, j)
    decreases |s| - from
  {
    if from == |s| then from
    else if Occurs(marker, s, from) then from
    else Find(marker, s, from + 1)
  }

  /** Where the value that begins at `from` ends. */
  function ValueEnd(kind: MarkerKind, s: string, from: nat): (end: nat)
    requires from <= |s|
    ensures from <= end <= |s|
    ensures end < |s| ==> IsDelimiter(kind, s[end])
    ensures forall j :: from <= j < end ==> !IsDelimiter(kind, s[j])
    decreases |s| - from
  {
    if from == |s| || IsDelimiter(kind, s[from]) then from else ValueEnd(kind, s, from + 1)
  }

  /** What replaces a value: an empty word value is left alone, everything else is redacted. */
  function Replacement(kind: MarkerKind, value: string): string {
    if kind == WordValue && value == "" then "" else REDACTED
  }

  /** The value of the marker occurrence that ends just before `tail` shows nothing. */
  predicate Hidden(kind: MarkerKind, tail: string) {
    || (kind == WordValue && (tail == "" || IsDelimiter(kind, tail[0])))
    || (REDACTED <= tail && (|tail| == |REDACTED| || IsDelimiter(kind, tail[|REDACTED|])))
  }

  ghost predicate HiddenAt(marker: Marker, s: string, i: nat) {
    Occurs(marker.text, s, i) ==> Hidden(marker.kind, s[i + |marker.text|..])
  }

  /** Every occurrence of the marker is followed by a hidden value. */
  ghost predicate Clean(marker: Marker, s: string) {
    forall i: nat :: HiddenAt(marker, s, i)
  }

  /** One pass as a function on the text not yet scanned. */
  function Pass(marker: Marker, s: string): string
    requires marker.text != ""
    decreases |s|
  {
    var i := Find(marker.text, s, 0);
    if i == |s| then s
    else
      var start := i + |marker.text|;
      var end := ValueEnd(marker.kind, s, start);
      s[..start] + Replacement(marker.kind, s[start..end]) + Pass(marker, s[end..])
  }

  // ---- facts about the marker table ------------------------------------------------

  /** A marker ends in a character found nowhere else in any marker, nor in the replacement text. */
  predicate IsTerminator(c: char) {
    c == ':' || c == '=' || c == ' '
  }

  predicate WellFormed(marker: Marker) {
    && |marker.text| > 0
    && IsTerminator(marker.text[|marker.text| - 1])
    && (forall k :: 0 <= k < |marker.text| - 1 ==> !IsTerminator(marker.text[k]))
    && (forall k :: 0 <= k < |marker.text| ==> marker.text[k] != '[' && marker.text[k] != ']')
    && (forall k :: 0 <= k < |marker.text| ==> !IsLineBreak(marker.text[k]))
    && (marker.kind == LineValue <==> marker.text[|marker.text| - 1] == ':')
  }

  /** A word in front of a terminator is a well-formed marker. */
  lemma WordThenTerminator(word: string, terminator: char)
    requires IsTerminator(terminator)
    requires forall k :: 0 <= k < |word| ==> 'a' <= word[k] <= 'z' || word[k] == '_' || word[k] == '-'
    ensures WellFormed(Marker(word + [terminator], if terminator == ':' then LineValue else WordValue))
  {
  }

  lemma LineMarkersAreWellFormed()
    ensures WellFormed(Marker("authorization:", LineValue))
    ensures WellFormed(Marker("cookie:", LineValue))
    ensures WellFormed(Marker("set-cookie:", LineValue))
  {
    hide WellFormed;
    WordThenTerminator("authorization", ':');
    assert "authorization" + [':'] == "authorization:";
    WordThenTerminator("cookie", ':');
    assert "cookie" + [':'] == "cookie:";
    WordThenTerminator("set-cookie", ':');
    assert "set-cookie" + [':'] == "set-cookie:";
  }

  lemma KeyMarkersAreWellFormed()
    ensures WellFormed(Marker("access_key=", WordValue))
    ensures WellFormed(Marker("bearer ", WordValue))
    ensures WellFormed(Marker("api_key=", WordValue))
    ensures WellFormed(Marker("apikey=", WordValue))
    ensures WellFormed(Marker("credential=", WordValue))
    ensures WellFormed(Marker("key=", WordValue))
  {
    hide WellFormed;
    WordThenTerminator("access_key", '=');
    assert "access_key" + ['='] == "access_key=";
    WordThenTerminator("bearer", ' ');
    assert "bearer" + [' '] == "bearer ";
    WordThenTerminator("api_key", '=');
    assert "api_key" + ['='] == "api_key=";
    WordThenTerminator("apikey", '=');
    assert "apikey" + ['='] == "apikey=";
    WordThenTerminator("credential", '=');
    assert "credential" + ['='] == "credential=";
    WordThenTerminator("key", '=');
    assert "key" + ['='] == "key=";
  }

  lemma SecretMarkersAreWellFormed()
    ensures WellFormed(Marker("password=", WordValue))
    ensures WellFormed(Marker("secret=", WordValue))
    ensures WellFormed(Marker("sig=", WordValue))
    ensures WellFormed(Marker("signature=", WordValue))
    ensures WellFormed(Marker("token=", WordValue))
  {
    hide WellFormed;
    WordThenTerminator("password", '=');
    assert "password" + ['='] == "password=";
    WordThenTerminator("secret", '=');
    assert "secret" + ['='] == "secret=";
    WordThenTerminator("sig", '=');
    assert "sig" + ['='] == "sig=";
    WordThenTerminator("signature", '=');
    assert "signature" + ['='] == "signature=";
    WordThenTerminator("token", '=');
    assert "token" + ['='] == "token=";
  }

  lemma TableIsWellFormed()
    ensures forall marker | marker in MARKERS :: WellFormed(marker)
  {
    hide WellFormed;
    LineMarkersAreWellFormed();
    KeyMarkersAreWellFormed();
    SecretMarkersAreWellFormed();
  }

  /** The replacement contains no terminator, starts and ends with brackets, and is lower case. */
  lemma ReplacementIsInert()
    ensures |REDACTED| == 10 && REDACTED[0] == '[' && REDACTED[9] == ']'
    ensures forall k :: 0 <= k < |REDACTED| ==> !IsTerminator(REDACTED[k]) && LowerChar(REDACTED[k]) == REDACTED[k]
    ensures forall kind, k :: 0 <= k < |REDACTED| ==> !IsDelimiter(kind, REDACTED[k])
  {
    assert REDACTED == ['[', 'r', 'e', 'd', 'a', 'c', 't', 'e', 'd', ']'];
  }

  // ---- one pass --------------------------------------------------------------------

  /** Text in which a pass has replaced one value: what precedes the value ends in a terminator. */
  ghost predicate Spliced(pre: string, replacement: string) {
    && pre != "" && IsTerminator(pre[|pre| - 1])
    && (replacement == "" || replacement == REDACTED)
  }

  /** A terminator inside an occurrence is its last character. */
  lemma TerminatorIsLast(marker: Marker, s: string, i: nat, p: nat)
    requires WellFormed(marker) && Occurs(marker.text, s, i)
    requires i <= p < i + |marker.text| && IsTerminator(s[p])
    ensures p == i + |marker.text| - 1 && marker.text[|marker.text| - 1] == s[p]
  {
    assert LowerChar(s[i + (p - i)]) == marker.text[p - i];
  }

  lemma OccurrenceEndsInTerminator(marker: Marker, s: string, i: nat)
    requires WellFormed(marker) && Occurs(marker.text, s, i)
    ensures |marker.text| > 0 && IsTerminator(s[i + |marker.text| - 1])
    ensures s[i + |marker.text| - 1] == marker.text[|marker.text| - 1]
  {
    assert LowerChar(s[i + (|marker.text| - 1)]) == marker.text[|marker.text| - 1];
  }

  /** No occurrence covers the closing bracket of a replacement. */
  lemma BracketIsOutside(marker: Marker, s: string, i: nat, p: nat)
    requires WellFormed(marker) && Occurs(marker.text, s, i) && p < |s| && s[p] == ']'
    ensures p < i || p >= i + |marker.text|
  {
    if i <= p < i + |marker.text| {
      OccurrenceCharacter(marker, s, i, p - i);
    }
  }

  lemma OccurrenceCharacter(marker: Marker, s: string, i: nat, k: nat)
    requires Occurs(marker.text, s, i) && k < |marker.text|
    ensures LowerChar(s[i + k]) == marker.text[k]
  {
  }

  lemma RedactedEndsInBracket()
    ensures |REDACTED| == 10 && REDACTED[9] == ']'
  {
  }

  /** An occurrence cannot straddle the splice: it lies wholly before or wholly after it. */
  lemma OccursBeforeOrAfter(marker: Marker, pre: string, replacement: string, rest: string, i: nat)
    requires WellFormed(marker) && Spliced(pre, replacement)
    requires Occurs(marker.text, pre + replacement + rest, i)
    ensures i + |marker.text| <= |pre| || i >= |pre| + |replacement|
  {
    hide WellFormed, Occurs, IsTerminator;
    var whole := pre + replacement + rest;
    RedactedEndsInBracket();
    OccurrenceEndsInTerminator(marker, whole, i);
    OccursFits(marker.text, whole, i);
    ReplacementIsPlain(pre, replacement, rest, i + |marker.text| - 1);
    if i + |marker.text| > |pre| {
      if i < |pre| {
        TerminatorIsLast(marker, whole, i, |pre| - 1);
      } else if i < |pre| + |replacement| {
        BracketIsOutside(marker, whole, i, |pre| + 9);
      }
    }
  }

  lemma ReplacementIsPlain(pre: string, replacement: string, rest: string, p: nat)
    requires replacement == "" || replacement == REDACTED
    requires p < |pre + replacement + rest| && IsTerminator((pre + replacement + rest)[p])
    ensures p < |pre| || p >= |pre| + |replacement|
  {
    ReplacementIsInert();
  }

  /** Neither a terminator nor a delimiter can stand inside the replacement text. */
  lemma RedactedIsPlain(kind: MarkerKind, tail: string, p: nat)
    requires REDACTED <= tail && p < |tail| && (IsTerminator(tail[p]) || IsDelimiter(kind, tail[p]))
    ensures p >= |REDACTED|
  {
    ReplacementIsInert();
  }

  /** A hidden value that begins strictly before the splice stays hidden whatever follows. */
  lemma HiddenBeforeSplice(kind: MarkerKind, pre: string, oldRest: string, newRest: string, from: nat)
    requires pre != "" && IsTerminator(pre[|pre| - 1]) && from < |pre|
    requires Hidden(kind, (pre + oldRest)[from..])
    ensures Hidden(kind, (pre + newRest)[from..])
  {
    hide IsDelimiter, IsTerminator;
    ReplacementIsInert();
    var kept := pre[from..];
    var before, after := (pre + oldRest)[from..], (pre + newRest)[from..];
    assert before == kept + oldRest && after == kept + newRest;
    assert before[|kept| - 1] == kept[|kept| - 1] == pre[|pre| - 1];
    if REDACTED <= before {
      RedactedIsPlain(kind, before, |kept| - 1);
      assert REDACTED <= kept;
      assert before[|REDACTED|] == after[|REDACTED|];
    } else {
      assert before[0] == after[0];
    }
  }

  lemma PassKeepsFirst(marker: Marker, s: string)
    requires marker.text != ""
    ensures Pass(marker, s) == "" <==> s == ""
    ensures s != "" ==> Pass(marker, s)[0] == s[0]
  {
  }

  predicate Matches(marker: string, window: string) {
    |window| == |marker| && forall k :: 0 <= k < |marker| ==> LowerChar(window[k]) == marker[k]
  }

  lemma OccursInWindow(marker: string, s: string, i: nat)
    requires i + |marker| <= |s|
    ensures Occurs(marker, s, i) <==> Matches(marker, s[i..i + |marker|])
  {
    var window := s[i..i + |marker|];
    if Matches(marker, window) {
      forall k | 0 <= k < |marker| ensures LowerChar(s[i + k]) == marker[k] {
        assert window[k] == s[i + k];
      }
    }
  }

  lemma SameOccurrence(marker: string, a: string, i: nat, b: string, j: nat)
    requires i + |marker| <= |a| && j + |marker| <= |b|
    requires a[i..i + |marker|] == b[j..j + |marker|]
    ensures Occurs(marker, a, i) <==> Occurs(marker, b, j)
  {
    OccursInWindow(marker, a, i);
    OccursInWindow(marker, b, j);
  }

  lemma CleanSuffix(marker: Marker, s: string, from: nat)
    requires Clean(marker, s) && from <= |s|
    ensures Clean(marker, s[from..])
  {
    hide Hidden;
    forall i: nat ensures HiddenAt(marker, s[from..], i) {
      SuffixOccurrence(marker, s, from, i);
    }
  }

  lemma SuffixOccurrence(marker: Marker, s: string, from: nat, i: nat)
    requires from <= |s| && HiddenAt(marker, s, from + i)
    ensures HiddenAt(marker, s[from..], i)
  {
    hide Hidden;
    if Occurs(marker.text, s[from..], i) {
      assert s[from..][i..i + |marker.text|] == s[from + i..from + i + |marker.text|];
      SameOccurrence(marker.text, s[from..], i, s, from + i);
      assert s[from..][i + |marker.text|..] == s[from + i + |marker.text|..];
    }
  }

  /** The value after the spliced occurrence is hidden for every marker that ends there. */
  lemma HiddenAtSplice(marker: Marker, passed: Marker, pre: string, replacement: string, rest: string)
    requires WellFormed(marker) && WellFormed(passed) && Spliced(pre, replacement)
    requires marker.text[|marker.text| - 1] == passed.text[|passed.text| - 1]
    requires replacement == "" ==> passed.kind == WordValue
    requires rest == "" || IsDelimiter(passed.kind, rest[0])
    ensures Hidden(marker.kind, replacement + rest)
  {
    ReplacementIsInert();
    if replacement == REDACTED && rest != "" {
      assert (replacement + rest)[|REDACTED|] == rest[0];
    }
  }

  /** A pass makes its own marker clean, and keeps every marker clean that was. */
  lemma {:induction false} PassCleans(passed: Marker, marker: Marker, s: string)
    requires WellFormed(passed) && WellFormed(marker)
    requires marker == passed || Clean(marker, s)
    ensures Clean(marker, Pass(passed, s))
    decreases |s|
  {
    hide Hidden, Occurs, IsDelimiter, IsTerminator, Find, ValueEnd, Clean, Replacement;
    var i := Find(passed.text, s, 0);
    if i < |s| {
      OccurrenceEndsInTerminator(passed, s, i);
      OccursFits(passed.text, s, i);
      var start := i + |passed.text|;
      var end := ValueEnd(passed.kind, s, start);
      if marker != passed {
        CleanSuffix(marker, s, end);
      }
      PassCleans(passed, marker, s[end..]);
      PassKeepsFirst(passed, s[end..]);
      SpliceIsClean(passed, marker, s, i, end, Pass(passed, s[end..]));
    } else {
      NoOccurrence(passed, s);
    }
  }

  lemma OccursFits(marker: string, s: string, i: nat)
    requires Occurs(marker, s, i)
    ensures i + |marker| <= |s|
  {
  }

  lemma NoOccurrence(marker: Marker, s: string)
    requires WellFormed(marker) && Find(marker.text, s, 0) == |s|
    ensures Clean(marker, s)
  {
  }

  /** One replacement in front of a clean rest gives clean text. */
  lemma SpliceIsClean(passed: Marker, marker: Marker, s: string, i: nat, end: nat, rest: string)
    requires WellFormed(passed) && WellFormed(marker)
    requires Occurs(passed.text, s, i) && i == Find(passed.text, s, 0)
    requires i + |passed.text| <= |s| && end == ValueEnd(passed.kind, s, i + |passed.text|)
    requires Clean(marker, rest)
    requires marker == passed || Clean(marker, s)
    requires rest == "" || (end < |s| && rest[0] == s[end])
    ensures Clean(marker, s[..i + |passed.text|] + Replacement(passed.kind, s[i + |passed.text|..end]) + rest)
  {
    hide Hidden, IsDelimiter, IsTerminator, Find, ValueEnd, WellFormed;
    var start := i + |passed.text|;
    var pre, replacement := s[..start], Replacement(passed.kind, s[start..end]);
    var whole := pre + replacement + rest;
    OccurrenceEndsInTerminator(passed, s, i);
    forall j: nat ensures HiddenAt(marker, whole, j) {
      if Occurs(marker.text, whole, j) {
        SplicedOccurrence(passed, marker, s, start, end, replacement, rest, j);
      }
    }
  }

  lemma SplicedOccurrence(passed: Marker, marker: Marker, s: string, start: nat, end: nat, replacement: string,
                          rest: string, j: nat)
    requires WellFormed(passed) && WellFormed(marker)
    requires 0 < start <= |s| && s[start - 1] == passed.text[|passed.text| - 1] && Spliced(s[..start], replacement)
    requires replacement == "" ==> passed.kind == WordValue
    requires rest == "" || IsDelimiter(passed.kind, rest[0])
    requires Clean(marker, rest)
    requires if marker == passed then forall k: nat :: k + |marker.text| < start ==> !Occurs(marker.text, s, k)
             else Clean(marker, s)
    requires Occurs(marker.text, s[..start] + replacement + rest, j)
    ensures Hidden(marker.kind, (s[..start] + replacement + rest)[j + |marker.text|..])
  {
    hide Hidden, Occurs, IsDelimiter, IsTerminator, WellFormed;
    var pre := s[..start];
    var whole := pre + replacement + rest;
    var from := j + |marker.text|;
    OccursFits(marker.text, whole, j);
    OccurrenceEndsInTerminator(marker, whole, j);
    OccursBeforeOrAfter(marker, pre, replacement, rest, j);
    if from < |pre| {
      assert s == pre + s[start..] && whole == pre + (replacement + rest);
      OccurredBefore(marker, s, start, replacement + rest, j);
      assert HiddenAt(marker, s, j);
      HiddenBeforeSplice(marker.kind, pre, s[start..], replacement + rest, from);
    } else if from == |pre| {
      assert whole[from..] == replacement + rest;
      HiddenAtSplice(marker, passed, pre, replacement, rest);
    } else {
      OccursAfter(marker.text, pre + replacement, rest, j);
      assert HiddenAt(marker, rest, j - |pre + replacement|);
      assert whole[from..] == rest[from - |pre + replacement|..];
    }
  }

  lemma OccurredBefore(marker: Marker, s: string, start: nat, rest: string, j: nat)
    requires start <= |s| && j + |marker.text| <= start && Occurs(marker.text, s[..start] + rest, j)
    ensures Occurs(marker.text, s, j)
  {
    assert (s[..start] + rest)[j..j + |marker.text|] == s[j..j + |marker.text|];
    SameOccurrence(marker.text, s[..start] + rest, j, s, j);
  }

  lemma OccursAfter(marker: string, left: string, right: string, j: nat)
    requires j >= |left| && Occurs(marker, left + right, j)
    ensures Occurs(marker, right, j - |left|)
  {
    assert (left + right)[j..j + |marker|] == right[j - |left|..j - |left| + |marker|];
    SameOccurrence(marker, left + right, j, right, j - |left|);
  }

  /** A pass leaves clean text exactly as it is. */
  lemma {:induction false} CleanIsFixed(marker: Marker, s: string)
    requires WellFormed(marker) && Clean(marker, s)
    ensures Pass(marker, s) == s
    decreases |s|
  {
    hide Hidden, IsDelimiter, IsTerminator, Find, ValueEnd, Replacement, WellFormed;
    var i := Find(marker.text, s, 0);
    if i < |s| {
      OccurrenceEndsInTerminator(marker, s, i);
      assert HiddenAt(marker, s, i);
      var start := i + |marker.text|;
      var end := ValueEnd(marker.kind, s, start);
      CleanSuffix(marker, s, end);
      CleanIsFixed(marker, s[end..]);
      HiddenValue(marker.kind, s, start);
      assert s == s[..start] + s[start..end] + s[end..];
    }
  }

  lemma HiddenValue(kind: MarkerKind, s: string, start: nat)
    requires start <= |s| && Hidden(kind, s[start..])
    ensures var value := s[start..ValueEnd(kind, s, start)]; Replacement(kind, value) == value
  {
    hide IsDelimiter;
    ReplacementIsInert();
    var end, tail := ValueEnd(kind, s, start), s[start..];
    if REDACTED <= tail {
      if end < |s| {
        assert tail[end - start] == s[end];
        RedactedIsPlain(kind, tail, end - start);
      }
      assert tail[..|REDACTED|] == s[start..start + |REDACTED|];
      if |tail| > |REDACTED| {
        assert tail[|REDACTED|] == s[start + |REDACTED|];
      }
      assert end == start + |REDACTED|;
    } else {
      assert tail != "" ==> tail[0] == s[start];
    }
  }

  // ---- what a pass leaves alone ----------------------------------------------------

  /** The text with the marker's values cut out. */
  function Skeleton(marker: Marker, s: string): string
    requires marker.text != ""
    decreases |s|
  {
    var i := Find(marker.text, s, 0);
    if i == |s| then s
    else
      var start := i + |marker.text|;
      s[..start] + Skeleton(marker, s[ValueEnd(marker.kind, s, start)..])
  }

  lemma FirstIs(marker: string, s: string, from: nat, i: nat)
    requires from <= i <= |s| && (i < |s| ==> Occurs(marker, s, i))
    requires forall j: nat | from <= j < i :: !Occurs(marker, s, j)
    ensures Find(marker, s, from) == i
  {
  }

  lemma ValueEndIs(kind: MarkerKind, s: string, start: nat, end: nat)
    requires start <= end <= |s| && (end < |s| ==> IsDelimiter(kind, s[end]))
    requires forall j | start <= j < end :: !IsDelimiter(kind, s[j])
    ensures ValueEnd(kind, s, start) == end
  {
  }

  /** The spliced occurrence is still the first one. */
  lemma SpliceIsFirst(marker: Marker, s: string, i: nat, replacement: string, rest: string)
    requires WellFormed(marker) && i == Find(marker.text, s, 0) < |s| && i + |marker.text| <= |s|
    requires Spliced(s[..i + |marker.text|], replacement)
    ensures Find(marker.text, s[..i + |marker.text|] + replacement + rest, 0) == i
  {
    hide WellFormed, Occurs, IsTerminator, Find;
    FindGives(marker.text, s);
    var pre := s[..i + |marker.text|];
    var whole := pre + replacement + rest;
    assert whole == pre + (replacement + rest);
    assert whole[i..i + |marker.text|] == s[i..i + |marker.text|];
    SameOccurrence(marker.text, s, i, whole, i);
    forall j: nat | 0 <= j < i ensures !Occurs(marker.text, whole, j) {
      if Occurs(marker.text, whole, j) {
        OccursBeforeOrAfter(marker, pre, replacement, rest, j);
        OccurredBefore(marker, s, |pre|, replacement + rest, j);
      }
    }
    FirstIs(marker.text, whole, 0, i);
  }

  lemma FindGives(marker: string, s: string)
    ensures var i := Find(marker, s, 0);
            i <= |s| && (i < |s| ==> Occurs(marker, s, i)) && forall j: nat | j < i :: !Occurs(marker, s, j)
  {
  }

  lemma Thirds(left: string, middle: string, right: string)
    ensures var whole := left + middle + right;
            && whole[..|left|] == left && whole[|left| + |middle|..] == right
            && whole[|left|..|left| + |middle|] == middle
  {
  }

  lemma NoDelimiterInReplacement(kind: MarkerKind, value: string, j: nat)
    requires j < |Replacement(kind, value)|
    ensures !IsDelimiter(kind, Replacement(kind, value)[j])
  {
    ReplacementIsInert();
  }

  /** The replaced value ends where the untouched rest begins. */
  lemma SpliceEnds(kind: MarkerKind, pre: string, value: string, rest: string)
    requires rest == "" || IsDelimiter(kind, rest[0])
    ensures var replacement := Replacement(kind, value);
            && ValueEnd(kind, pre + replacement + rest, |pre|) == |pre| + |replacement|
            && (pre + replacement + rest)[|pre| + |replacement|..] == rest
            && (pre + replacement + rest)[..|pre|] == pre
  {
    hide IsDelimiter, Replacement;
    var replacement := Replacement(kind, value);
    var whole := pre + replacement + rest;
    Thirds(pre, replacement, rest);
    forall j | |pre| <= j < |pre| + |replacement| ensures !IsDelimiter(kind, whole[j]) {
      assert whole[j] == whole[|pre|..|pre| + |replacement|][j - |pre|];
      NoDelimiterInReplacement(kind, value, j - |pre|);
    }
    if rest != "" {
      assert whole[|pre| + |replacement|] == whole[|pre| + |replacement|..][0];
    }
    ValueEndIs(kind, whole, |pre|, |pre| + |replacement|);
  }

  /** A pass changes values only: with them cut out, the text is the same before and after. */
  lemma {:induction false} PassKeepsSkeleton(marker: Marker, s: string)
    requires WellFormed(marker)
    ensures Skeleton(marker, Pass(marker, s)) == Skeleton(marker, s)
    decreases |s|
  {
    var i := Find(marker.text, s, 0);
    NonEmptyMarker(marker);
    hide Find, ValueEnd, Replacement, Occurs, WellFormed, IsDelimiter, IsTerminator;
    if i < |s| {
      OccursFits(marker.text, s, i);
      var end := ValueEnd(marker.kind, s, i + |marker.text|);
      PassKeepsSkeleton(marker, s[end..]);
      PassUnfolds(marker, s, i, end);
      RestStartsAtDelimiter(marker, s, i + |marker.text|, end);
      SkeletonUnfolds(marker, s, i, end);
      hide Skeleton, Pass;
      SplicedSkeleton(marker, s, i, end, Pass(marker, s[end..]));
    }
  }

  lemma PassUnfolds(marker: Marker, s: string, i: nat, end: nat)
    requires marker.text != "" && Find(marker.text, s, 0) == i < |s| && i + |marker.text| <= |s|
    requires ValueEnd(marker.kind, s, i + |marker.text|) == end
    ensures i + |marker.text| <= end <= |s|
    ensures Pass(marker, s)
         == s[..i + |marker.text|] + Replacement(marker.kind, s[i + |marker.text|..end]) + Pass(marker, s[end..])
  {
    hide Find, Replacement, Occurs, ValueEnd, IsDelimiter;
  }

  lemma RestStartsAtDelimiter(marker: Marker, s: string, start: nat, end: nat)
    requires marker.text != "" && start <= |s| && ValueEnd(marker.kind, s, start) == end
    ensures end <= |s|
    ensures var rest := Pass(marker, s[end..]); rest == "" || IsDelimiter(marker.kind, rest[0])
  {
    PassKeepsFirst(marker, s[end..]);
    hide Find, Replacement, Occurs, ValueEnd, IsDelimiter, Pass;
  }

  /** The first value of a text replaced and the rest changed: its skeleton from the front. */
  lemma SplicedSkeleton(marker: Marker, s: string, i: nat, end: nat, rest: string)
    requires WellFormed(marker) && marker.text != "" && Find(marker.text, s, 0) == i < |s| && i + |marker.text| <= |s|
    requires ValueEnd(marker.kind, s, i + |marker.text|) == end <= |s|
    requires i + |marker.text| <= end && (rest == "" || IsDelimiter(marker.kind, rest[0]))
    ensures var start := i + |marker.text|;
            Skeleton(marker, s[..start] + Replacement(marker.kind, s[start..end]) + rest)
                == s[..start] + Skeleton(marker, rest)
  {
    hide Pass, Skeleton, Find, ValueEnd, Replacement, Occurs, WellFormed, IsDelimiter, IsTerminator;
    var start := i + |marker.text|;
    var replacement := Replacement(marker.kind, s[start..end]);
    FindGives(marker.text, s);
    OccurrenceEndsInTerminator(marker, s, i);
    ReplacementCases(marker.kind, s[start..end]);
    SpliceIsFirst(marker, s, i, replacement, rest);
    SpliceEnds(marker.kind, s[..start], s[start..end], rest);
    SkeletonUnfolds(marker, s[..start] + replacement + rest, i, start + |replacement|);
  }

  /** A text whose first occurrence is here and whose value ends there. */
  lemma SkeletonUnfolds(marker: Marker, s: string, i: nat, end: nat)
    requires marker.text != "" && Find(marker.text, s, 0) == i < |s| && i + |marker.text| <= |s|
    requires ValueEnd(marker.kind, s, i + |marker.text|) == end
    ensures i + |marker.text| <= end <= |s|
    ensures Skeleton(marker, s) == s[..i + |marker.text|] + Skeleton(marker, s[end..])
  {
    hide Find, ValueEnd, Occurs, IsDelimiter;
  }

  lemma ReplacementCases(kind: MarkerKind, value: string)
    ensures Replacement(kind, value) == "" || Replacement(kind, value) == REDACTED
  {
  }

  lemma NonEmptyMarker(marker: Marker)
    requires WellFormed(marker)
    ensures marker.text != ""
  {
  }

  // ---- the pipeline ----------------------------------------------------------------

  /** The first `count` passes of a table, one after another. */
  function RunPasses(markers: seq<Marker>, s: string, count: nat): string
    requires count <= |markers| && forall marker | marker in markers :: marker.text != ""
  {
    if count == 0 then s else Pass(markers[count - 1], RunPasses(markers, s, count - 1))
  }

  lemma TableHasTexts()
    ensures forall marker | marker in MARKERS :: marker.text != ""
  {
    TableIsWellFormed();
  }

  function RedactAll(s: string): string {
    TableHasTexts();
    RunPasses(MARKERS, s, |MARKERS|)
  }

  /** No pass undoes an earlier one. */
  lemma {:induction false} PassesAccumulate(markers: seq<Marker>, s: string, count: nat)
    requires count <= |markers| && forall marker | marker in markers :: WellFormed(marker) && marker.text != ""
    ensures forall m :: 0 <= m < count ==> Clean(markers[m], RunPasses(markers, s, count))
    decreases count
  {
    hide Clean, Pass, WellFormed;
    if count > 0 {
      var before := RunPasses(markers, s, count - 1);
      PassesAccumulate(markers, s, count - 1);
      forall m | 0 <= m < count ensures Clean(markers[m], RunPasses(markers, s, count)) {
        PassCleans(markers[count - 1], markers[m], before);
      }
    }
  }

  ghost predicate FullyClean(s: string) {
    AllClean(MARKERS, s)
  }

  ghost predicate AllClean(markers: seq<Marker>, s: string) {
    forall m :: 0 <= m < |markers| ==> Clean(markers[m], s)
  }

  lemma {:induction false} FullyCleanIsFixed(markers: seq<Marker>, s: string, count: nat)
    requires count <= |markers| && forall marker | marker in markers :: WellFormed(marker) && marker.text != ""
    requires AllClean(markers, s)
    ensures RunPasses(markers, s, count) == s
    decreases count
  {
    hide Clean, Pass, WellFormed;
    if count > 0 {
      FullyCleanIsFixed(markers, s, count - 1);
      CleanIsFixed(markers[count - 1], s);
    }
  }

  /** After all passes every marker occurrence is followed by a hidden value, and redacting again
      changes nothing; in particular text without any marker is untouched. */
  lemma RedactionIsCompleteAndStable(s: string)
    ensures FullyClean(RedactAll(s))
    ensures RedactAll(RedactAll(s)) == RedactAll(s)
    ensures RedactAll(s) == s <==> FullyClean(s)
  {
    TableIsWellFormed();
    TableHasTexts();
    hide Clean, RunPasses, WellFormed;
    PassesAccumulate(MARKERS, s, |MARKERS|);
    FullyCleanIsFixed(MARKERS, RedactAll(s), |MARKERS|);
    if FullyClean(s) {
      FullyCleanIsFixed(MARKERS, s, |MARKERS|);
    }
  }

  // ---- the passes as the code runs them --------------------------------------------

  lemma FindShift(marker: string, s: string, from: nat)
    requires marker != "" && from <= |s|
    ensures Find(marker, s, from) == from + Find(marker, s[from..], 0)
  {
    hide Occurs, Find;
    var i := Find(marker, s[from..], 0);
    FindGives(marker, s[from..]);
    forall j: nat | from <= j < from + i ensures !Occurs(marker, s, j) {
      ShiftedOccurrence(marker, s, from, j - from);
    }
    ShiftedOccurrence(marker, s, from, i);
    FirstIs(marker, s, from, from + i);
  }

  lemma ShiftedOccurrence(marker: string, s: string, from: nat, j: nat)
    requires from <= |s|
    ensures Occurs(marker, s[from..], j) <==> Occurs(marker, s, from + j)
  {
    if from + j + |marker| <= |s| {
      assert s[from..][j..j + |marker|] == s[from + j..from + j + |marker|];
      SameOccurrence(marker, s[from..], j, s, from + j);
    }
  }

  lemma ValueEndShift(kind: MarkerKind, s: string, from: nat, start: nat)
    requires from <= start <= |s|
    ensures ValueEnd(kind, s, start) == from + ValueEnd(kind, s[from..], start - from)
  {
    var end := from + ValueEnd(kind, s[from..], start - from);
    forall j | start <= j < end ensures !IsDelimiter(kind, s[j]) {
      assert s[j] == s[from..][j - from];
    }
    ValueEndIs(kind, s, start, end);
  }

  /** Scanning the rest of the text finds what scanning the whole text from there finds. */
  lemma RestOfScan(marker: Marker, output: string, from: nat)
    requires marker.text != "" && from <= |output|
    ensures var i := Find(marker.text, output, from);
            if i == |output| then Pass(marker, output[from..]) == output[from..]
            else
              var start := i + |marker.text|;
              && start <= |output|
              && var end := ValueEnd(marker.kind, output, start);
                 Pass(marker, output[from..])
                 == output[from..start] + Replacement(marker.kind, output[start..end]) + Pass(marker, output[end..])
  {
    hide Pass, Find, ValueEnd, Replacement, Occurs, IsDelimiter;
    var rest := output[from..];
    FindShift(marker.text, output, from);
    var i := Find(marker.text, output, from);
    if i == |output| {
      NothingToPass(marker, rest);
    } else {
      FindGives(marker.text, rest);
      OccursFits(marker.text, rest, i - from);
      var start := i + |marker.text|;
      ValueEndShift(marker.kind, output, from, start);
      var end := ValueEnd(marker.kind, output, start);
      PassUnfolds(marker, rest, i - from, end - from);
      Slices(output, from, start, end);
    }
  }

  lemma NothingToPass(marker: Marker, s: string)
    requires marker.text != "" && Find(marker.text, s, 0) == |s|
    ensures Pass(marker, s) == s
  {
  }

  lemma Slices(s: string, from: nat, start: nat, end: nat)
    requires from <= start <= end <= |s|
    ensures s[from..][..start - from] == s[from..start]
    ensures s[from..][start - from..end - from] == s[start..end]
    ensures s[from..][end - from..] == s[end..]
  {
  }

  /** Everything before `from` is final and passing the rest completes the goal. */
  ghost predicate ScannedTo(marker: Marker, output: string, from: nat, goal: string)
    requires marker.text != ""
  {
    from <= |output| && output[..from] + Pass(marker, output[from..]) == goal
  }

  /** One turn of the loop replaces one value and scans past the replacement. */
  lemma OneTurn(marker: Marker, output: string, from: nat, goal: string)
    requires marker.text != "" && ScannedTo(marker, output, from, goal)
    ensures var i := Find(marker.text, output, from);
            if i == |output| then output == goal
            else
              var start := i + |marker.text|;
              && start <= |output|
              && var end := ValueEnd(marker.kind, output, start);
                 var replacement := Replacement(marker.kind, output[start..end]);
                 ScannedTo(marker, output[..start] + replacement + output[end..], start + |replacement|, goal)
  {
    hide Pass, Find, ValueEnd, Replacement, Occurs, IsDelimiter;
    RestOfScan(marker, output, from);
    var i := Find(marker.text, output, from);
    if i == |output| {
      assert output == output[..from] + output[from..];
    } else {
      var start := i + |marker.text|;
      var end := ValueEnd(marker.kind, output, start);
      var replacement := Replacement(marker.kind, output[start..end]);
      assert output[..start] == output[..from] + output[from..start];
      Thirds(output[..start], replacement, output[end..]);
      assert (output[..start] + replacement + output[end..])[..start + |replacement|] == output[..start] + replacement;
    }
  }

  lemma ScanStarts(marker: Marker, value: string)
    requires marker.text != ""
    ensures ScannedTo(marker, value, 0, Pass(marker, value))
  {
    hide Pass;
    assert value[0..] == value;
  }

  lemma ScanEnds(marker: Marker, output: string, goal: string)
    requires marker.text != "" && ScannedTo(marker, output, |output|, goal)
    ensures output == goal
  {
    assert output[|output|..] == "" && output[..|output|] == output;
  }

  method RedactLineValueAfterMarker(value: string, marker: string) returns (output: string)
    requires marker != ""
    ensures output == Pass(Marker(marker, LineValue), value)
  {
    hide Pass, Find, ValueEnd, Occurs, ScannedTo;
    ghost var goal := Pass(Marker(marker, LineValue), value);
    output := value;
    var searchFrom := 0;
    ScanStarts(Marker(marker, LineValue), value);
    while true
      invariant 0 <= searchFrom <= |output|
      invariant ScannedTo(Marker(marker, LineValue), output, searchFrom, goal)
      decreases |output| - searchFrom
    {
      OneTurn(Marker(marker, LineValue), output, searchFrom, goal);
      var found := Find(marker, output, searchFrom);
      if found == |output| {
        break;
      }
      var valueStart := found + |marker|;
      var valueEnd := ValueEnd(LineValue, output, valueStart);
      output := output[..valueStart] + REDACTED + output[valueEnd..];
      searchFrom := valueStart + |REDACTED|;
    }
  }

  method RedactValuesAfterMarker(value: string, marker: string) returns (output: string)
    requires marker != ""
    ensures output == Pass(Marker(marker, WordValue), value)
  {
    hide Pass, Find, ValueEnd, Occurs, ScannedTo;
    ghost var goal := Pass(Marker(marker, WordValue), value);
    output := value;
    var searchFrom := 0;
    ScanStarts(Marker(marker, WordValue), value);
    while true
      invariant 0 <= searchFrom <= |output|
      invariant ScannedTo(Marker(marker, WordValue), output, searchFrom, goal)
      decreases |output| - searchFrom
    {
      OneTurn(Marker(marker, WordValue), output, searchFrom, goal);
      var found := Find(marker, output, searchFrom);
      if found == |output| {
        break;
      }
      var valueStart := found + |marker|;
      var valueEnd := ValueEnd(WordValue, output, valueStart);
      if valueStart == valueEnd {
        searchFrom := valueStart;
        assert output[valueStart..valueEnd] == "";
        assert output[..valueStart] + "" + output[valueEnd..] == output;
        if searchFrom >= |output| {
          ScanEnds(Marker(marker, WordValue), output, goal);
          break;
        }
        continue;
      }
      output := output[..valueStart] + REDACTED + output[valueEnd..];
      searchFrom := valueStart + |REDACTED|;
    }
  }

  method RedactMarkers(markers: seq<Marker>, value: string) returns (redacted: string)
    requires forall marker | marker in markers :: marker.text != ""
    ensures redacted == RunPasses(markers, value, |markers|)
  {
    hide Pass;
    redacted := value;
    for m := 0 to |markers|
      invariant redacted == RunPasses(markers, value, m)
    {
      match markers[m].kind {
        case LineValue => redacted := RedactLineValueAfterMarker(redacted, markers[m].text);
        case WordValue => redacted := RedactValuesAfterMarker(redacted, markers[m].text);
      }
    }
  }

  /** The fourteen passes in table order. */
  method RedactEmbeddedCredentials(value: string) returns (redacted: string)
    ensures redacted == RedactAll(value) && FullyClean(redacted)
  {
    TableHasTexts();
    hide FullyClean, RunPasses;
    redacted := RedactMarkers(MARKERS, value);
    RedactionIsCompleteAndStable(value);
  }

  // ---- which values are replaced ----------------------------------------------------

  lemma PrefixOccurrence(marker: string, s: string, n: nat, j: nat)
    requires j + |marker| <= n <= |s|
    ensures Occurs(marker, s[..n], j) <==> Occurs(marker, s, j)
  {
    assert s[..n][j..j + |marker|] == s[j..j + |marker|];
    SameOccurrence(marker, s[..n], j, s, j);
  }

  /** The first occurrence is the first one of every prefix that holds it, and no prefix holds another. */
  lemma FirstInPrefix(marker: string, s: string, n: nat)
    requires marker != "" && n <= |s|
    ensures var i := Find(marker, s, 0); Find(marker, s[..n], 0) == if i + |marker| <= n then i else n
  {
    hide Occurs, Find;
    var i := Find(marker, s, 0);
    FindGives(marker, s);
    var first := if i + |marker| <= n then i else n;
    forall j: nat | j < first ensures !Occurs(marker, s[..n], j) {
      if Occurs(marker, s[..n], j) {
        OccursFits(marker, s[..n], j);
        PrefixOccurrence(marker, s, n, j);
      }
    }
    if first < n {
      PrefixOccurrence(marker, s, n, i);
    }
    FirstIs(marker, s[..n], 0, first);
  }

  lemma ValueEndInPrefix(kind: MarkerKind, s: string, start: nat, n: nat)
    requires start <= n <= |s| && ValueEnd(kind, s, start) <= n
    ensures ValueEnd(kind, s[..n], start) == ValueEnd(kind, s, start)
  {
    hide IsDelimiter;
    ValueEndIs(kind, s[..n], start, ValueEnd(kind, s, start));
  }

  /** The scan comes to the occurrence at `i`: it is the first, or comes after the value of one it came to. */
  ghost predicate Visits(marker: Marker, s: string, i: nat)
    requires marker.text != ""
    decreases |s|
  {
    var first := Find(marker.text, s, 0);
    && first < |s|
    && (i == first
        || var end := ValueEnd(marker.kind, s, first + |marker.text|);
           end <= i && Visits(marker, s[end..], i - end))
  }

  /** What stands for the value that begins at `start`: nothing for a word value when the text ends there
      or a delimiter follows, the replacement text otherwise. */
  function Shown(kind: MarkerKind, s: string, start: nat): string
    requires start <= |s|
  {
    if kind == WordValue && (start == |s| || IsDelimiter(WordValue, s[start])) then "" else REDACTED
  }

  /** The value of the occurrence at `i` is shown as `Shown` says; what comes before and after is passed on
      its own. */
  ghost predicate ReplacedAt(marker: Marker, s: string, i: nat)
    requires marker.text != "" && i + |marker.text| <= |s|
  {
    var start := i + |marker.text|;
    Pass(marker, s) == Pass(marker, s[..i]) + s[i..start] + Shown(marker.kind, s, start)
                     + Pass(marker, s[ValueEnd(marker.kind, s, start)..])
  }

  lemma FoundFits(marker: string, s: string)
    ensures var i := Find(marker, s, 0); i < |s| ==> Occurs(marker, s, i) && i + |marker| <= |s|
  {
  }

  lemma NothingBeforeFirst(marker: Marker, s: string)
    requires marker.text != ""
    ensures var i := Find(marker.text, s, 0); i <= |s| && Pass(marker, s[..i]) == s[..i]
  {
    hide Pass, Find, Occurs;
    FindGives(marker.text, s);
    FirstInPrefix(marker.text, s, Find(marker.text, s, 0));
    NothingToPass(marker, s[..Find(marker.text, s, 0)]);
  }

  lemma FirstIsReplaced(marker: Marker, s: string)
    requires marker.text != "" && Find(marker.text, s, 0) < |s|
    ensures var i := Find(marker.text, s, 0);
            Occurs(marker.text, s, i) && i + |marker.text| <= |s| && ReplacedAt(marker, s, i)
  {
    hide Pass, Find, ValueEnd, Occurs, IsDelimiter, Shown, Replacement, ReplacedAt;
    FoundFits(marker.text, s);
    NothingBeforeFirst(marker, s);
    var i := Find(marker.text, s, 0);
    var end := ValueEnd(marker.kind, s, i + |marker.text|);
    PassUnfolds(marker, s, i, end);
    UnfoldedIsReplaced(marker, s, i, end);
  }

  lemma UnfoldedIsReplaced(marker: Marker, s: string, i: nat, end: nat)
    requires marker.text != "" && i + |marker.text| <= end <= |s|
    requires ValueEnd(marker.kind, s, i + |marker.text|) == end && Pass(marker, s[..i]) == s[..i]
    requires Pass(marker, s)
          == s[..i + |marker.text|] + Replacement(marker.kind, s[i + |marker.text|..end]) + Pass(marker, s[end..])
    ensures ReplacedAt(marker, s, i)
  {
    hide Pass, ValueEnd, Occurs, IsDelimiter, Shown, Replacement;
    EmptyIff(marker.kind, s, i + |marker.text|);
    ThreeJoin(s, i, i + |marker.text|, Shown(marker.kind, s, i + |marker.text|), Pass(marker, s[end..]));
  }

  lemma ThreeJoin(s: string, i: nat, j: nat, r: string, y: string)
    requires i <= j <= |s|
    ensures s[..j] + r + y == s[..i] + s[i..j] + r + y
  {
    SliceJoins(s, i, j);
  }

  lemma SliceJoins(s: string, i: nat, j: nat)
    requires i <= j <= |s|
    ensures s[..j] == s[..i] + s[i..j]
  {
  }

  lemma SlicesOfPrefix(s: string, start: nat, end: nat, n: nat)
    requires start <= end <= n <= |s|
    ensures s[..n][..start] == s[..start] && s[..n][start..end] == s[start..end] && s[..n][end..] == s[end..][..n - end]
  {
  }

  lemma Regroup(a: string, b: string, c: string, d: string)
    ensures a + b + c + d == a + (b + c + d)
  {
  }

  /** Replaced in the rest behind the first value, so replaced in the whole. */
  lemma LaterIsReplaced(marker: Marker, s: string, first: nat, end: nat, i: nat)
    requires marker.text != "" && Find(marker.text, s, 0) == first < |s| && first + |marker.text| <= |s|
    requires ValueEnd(marker.kind, s, first + |marker.text|) == end <= i && i + |marker.text| <= |s|
    requires Occurs(marker.text, s[end..], i - end) && ReplacedAt(marker, s[end..], i - end)
    ensures Occurs(marker.text, s, i) && ReplacedAt(marker, s, i)
  {
    hide Pass, Find, ValueEnd, Occurs, IsDelimiter, Shown, Replacement;
    PassUnfolds(marker, s, first, end);
    PrefixUnfolds(marker, s, first, end, i);
    LaterOccurrence(marker, s, end, i);
  }

  lemma PrefixUnfolds(marker: Marker, s: string, first: nat, end: nat, n: nat)
    requires marker.text != "" && Find(marker.text, s, 0) == first < |s| && first + |marker.text| <= |s|
    requires ValueEnd(marker.kind, s, first + |marker.text|) == end <= n <= |s|
    ensures first + |marker.text| <= end
    ensures Pass(marker, s[..n])
         == s[..first + |marker.text|] + Replacement(marker.kind, s[first + |marker.text|..end])
          + Pass(marker, s[end..][..n - end])
  {
    hide Pass, Find, ValueEnd, IsDelimiter, Replacement, Occurs;
    PrefixScan(marker, s, first, end, n);
    PassUnfolds(marker, s[..n], first, end);
    SlicesOfPrefix(s, first + |marker.text|, end, n);
  }

  lemma PrefixScan(marker: Marker, s: string, first: nat, end: nat, n: nat)
    requires marker.text != "" && Find(marker.text, s, 0) == first < |s| && first + |marker.text| <= |s|
    requires ValueEnd(marker.kind, s, first + |marker.text|) == end <= n <= |s|
    ensures first + |marker.text| <= end && first < |s[..n]|
    ensures Find(marker.text, s[..n], 0) == first && ValueEnd(marker.kind, s[..n], first + |marker.text|) == end
  {
    hide Find, ValueEnd, IsDelimiter, Occurs;
    FirstInPrefix(marker.text, s, n);
    ValueEndInPrefix(marker.kind, s, first + |marker.text|, n);
  }

  /** Every value the scan comes to is replaced, unless it is a word value and nothing or a delimiter follows
      its marker. */
  lemma {:induction false} ValueIsReplacedIff(marker: Marker, s: string, i: nat)
    requires marker.text != "" && Visits(marker, s, i)
    ensures Occurs(marker.text, s, i) && i + |marker.text| <= |s| && ReplacedAt(marker, s, i)
    decreases |s|
  {
    hide Pass, Find, ValueEnd, Occurs, IsDelimiter, ReplacedAt;
    var first := Find(marker.text, s, 0);
    FirstIsReplaced(marker, s);
    if i != first {
      var end := ValueEnd(marker.kind, s, first + |marker.text|);
      PassUnfolds(marker, s, first, end);
      ValueIsReplacedIff(marker, s[end..], i - end);
      LaterIsReplaced(marker, s, first, end, i);
    }
  }

  lemma EmptyIff(kind: MarkerKind, s: string, start: nat)
    requires start <= |s|
    ensures Replacement(kind, s[start..ValueEnd(kind, s, start)]) == Shown(kind, s, start)
  {
  }

  lemma LaterOccurrence(marker: Marker, s: string, end: nat, i: nat)
    requires end <= i && i + |marker.text| <= |s| && Occurs(marker.text, s[end..], i - end)
    ensures Occurs(marker.text, s, i)
    ensures var start := i + |marker.text|;
            && s[end..][i - end..start - end] == s[i..start]
            && Shown(marker.kind, s[end..], start - end) == Shown(marker.kind, s, start)
            && var last := ValueEnd(marker.kind, s, start);
               ValueEnd(marker.kind, s[end..], start - end) == last - end && s[end..][last - end..] == s[last..]
  {
    ShiftedOccurrence(marker.text, s, end, i - end);
    ValueEndShift(marker.kind, s, end, i + |marker.text|);
    hide Occurs, IsDelimiter;
  }

  /** Without a colon, and with nothing or a delimiter behind every other terminator, text is clean. */
  lemma DelimitedIsClean(s: string)
    requires forall p :: 0 <= p < |s| && IsTerminator(s[p]) ==>
               s[p] != ':' && (p + 1 == |s| || IsDelimiter(WordValue, s[p + 1]))
    ensures FullyClean(s)
  {
    TableIsWellFormed();
    forall m | 0 <= m < |MARKERS| ensures Clean(MARKERS[m], s) {
      DelimitedIsCleanOf(MARKERS[m], s);
    }
  }

  lemma DelimitedIsCleanOf(marker: Marker, s: string)
    requires WellFormed(marker)
    requires forall p :: 0 <= p < |s| && IsTerminator(s[p]) ==>
               s[p] != ':' && (p + 1 == |s| || IsDelimiter(WordValue, s[p + 1]))
    ensures Clean(marker, s)
  {
    hide Occurs, IsDelimiter, IsTerminator;
    forall i: nat ensures HiddenAt(marker, s, i) {
      if Occurs(marker.text, s, i) {
        OccursFits(marker.text, s, i);
        OccurrenceEndsInTerminator(marker, s, i);
      }
    }
  }

  /** A quoted password is not replaced: the quotation mark is a delimiter. */
  lemma QuotedPasswordStays()
    ensures RedactAll("password=\"hunter2\"") == "password=\"hunter2\""
  {
    hide FullyClean, RedactAll, IsTerminator, IsDelimiter;
    var s := "password=\"hunter2\"";
    QuotedIsDelimited(s);
    DelimitedIsClean(s);
    RedactionIsCompleteAndStable(s);
  }

  lemma QuotedIsDelimited(s: string)
    requires s == "password=\"hunter2\""
    ensures forall p :: 0 <= p < |s| && IsTerminator(s[p]) ==>
              s[p] != ':' && (p + 1 == |s| || IsDelimiter(WordValue, s[p + 1]))
  {
    assert s == ['p', 'a', 's', 's', 'w', 'o', 'r', 'd', '=', '\"', 'h', 'u', 'n', 't', 'e', 'r', '2', '\"'];
    hide White;
  }

  // ---- line by line ----------------------------------------------------------------

  lemma OccurrenceAvoidsBreak(marker: Marker, s: string, i: nat, p: nat)
    requires WellFormed(marker) && Occurs(marker.text, s, i) && p < |s| && IsLineBreak(s[p])
    ensures p < i || p >= i + |marker.text|
  {
    if i <= p < i + |marker.text| {
      OccurrenceCharacter(marker, s, i, p - i);
    }
  }

  lemma ValueAvoidsBreak(kind: MarkerKind, s: string, start: nat, p: nat)
    requires start <= p < |s| && IsLineBreak(s[p])
    ensures ValueEnd(kind, s, start) <= p
  {
  }

  /** The first occurrence is behind the line break, so scanning from there finds it too. */
  lemma FirstBehindBreak(marker: Marker, s: string, n: nat)
    requires WellFormed(marker) && n < |s| && IsLineBreak(s[n]) && n <= Find(marker.text, s, 0)
    ensures var i := Find(marker.text, s, 0);
            && n < i <= |s| && Find(marker.text, s, n + 1) == i
            && (i < |s| ==> i + |marker.text| <= |s|)
  {
    hide Find, Occurs, WellFormed, IsLineBreak;
    var i := Find(marker.text, s, 0);
    FindGives(marker.text, s);
    if i < |s| {
      OccursFits(marker.text, s, i);
      NonEmptyMarker(marker);
      OccurrenceAvoidsBreak(marker, s, i, n);
    }
    FirstIs(marker.text, s, n + 1, i);
  }

  /** A line break in front of all occurrences: what comes before it stays, the rest is passed on its own. */
  lemma PassSkips(marker: Marker, s: string, n: nat)
    requires WellFormed(marker) && marker.text != ""
    requires n < |s| && IsLineBreak(s[n]) && n <= Find(marker.text, s, 0)
    ensures Pass(marker, s) == s[..n + 1] + Pass(marker, s[n + 1..])
  {
    hide Pass, Find, ValueEnd, Replacement, Occurs, IsDelimiter, IsTerminator, WellFormed, IsLineBreak;
    FirstBehindBreak(marker, s, n);
    RestOfScan(marker, s, n + 1);
    var i := Find(marker.text, s, 0);
    if i == |s| {
      NothingToPass(marker, s);
      SplitsAt(s, n + 1);
    } else {
      SkippedUnfolds(marker, s, n + 1, i, ValueEnd(marker.kind, s, i + |marker.text|));
    }
  }

  lemma SplitsAt(s: string, n: nat)
    requires n <= |s|
    ensures s == s[..n] + s[n..]
  {
  }

  lemma SkippedUnfolds(marker: Marker, s: string, n: nat, i: nat, end: nat)
    requires marker.text != "" && Find(marker.text, s, 0) == i < |s| && n <= i && i + |marker.text| <= end <= |s|
    requires ValueEnd(marker.kind, s, i + |marker.text|) == end
    ensures Pass(marker, s)
         == s[..n] + (s[n..i + |marker.text|] + Replacement(marker.kind, s[i + |marker.text|..end])
             + Pass(marker, s[end..]))
  {
    hide Pass, Find, ValueEnd, Replacement, Occurs, IsDelimiter;
    PassUnfolds(marker, s, i, end);
    FourJoin(s, n, i + |marker.text|, Replacement(marker.kind, s[i + |marker.text|..end]), Pass(marker, s[end..]));
  }

  lemma FourJoin(s: string, i: nat, j: nat, r: string, y: string)
    requires i <= j <= |s|
    ensures s[..j] + r + y == s[..i] + (s[i..j] + r + y)
  {
    SliceJoins(s, i, j);
    Regroup(s[..i], s[i..j], r, y);
  }

  /** An occurrence before a line break has its value before it too. */
  lemma OnItsLine(marker: Marker, s: string, n: nat)
    requires WellFormed(marker) && marker.text != ""
    requires n < |s| && IsLineBreak(s[n]) && Find(marker.text, s, 0) < n
    ensures var i := Find(marker.text, s, 0);
            && i + |marker.text| <= n && Find(marker.text, s[..n], 0) == i
            && var end := ValueEnd(marker.kind, s, i + |marker.text|);
               end <= n && ValueEnd(marker.kind, s[..n], i + |marker.text|) == end
  {
    hide Find, ValueEnd, Occurs, IsDelimiter, IsTerminator, WellFormed, IsLineBreak;
    var i := Find(marker.text, s, 0);
    FindGives(marker.text, s);
    OccurrenceAvoidsBreak(marker, s, i, n);
    FirstInPrefix(marker.text, s, n);
    ValueAvoidsBreak(marker.kind, s, i + |marker.text|, n);
    ValueEndInPrefix(marker.kind, s, i + |marker.text|, n);
  }

  /** A pass works on each side of a line break on its own. */
  lemma {:induction false} PassSplits(marker: Marker, a: string, c: char, b: string)
    requires WellFormed(marker) && marker.text != "" && IsLineBreak(c)
    ensures Pass(marker, a + [c] + b) == Pass(marker, a) + [c] + Pass(marker, b)
    decreases |a|
  {
    hide Pass, Find, ValueEnd, Replacement, Occurs, IsDelimiter, IsTerminator, WellFormed, IsLineBreak;
    var s := a + [c] + b;
    assert s[..|a|] == a && s[|a|] == c && s[|a| + 1..] == b && s[..|a| + 1] == a + [c];
    var i := Find(marker.text, s, 0);
    FindGives(marker.text, s);
    if i < |a| {
      OnItsLine(marker, s, |a|);
      var start := i + |marker.text|;
      var end := ValueEnd(marker.kind, s, start);
      PassUnfolds(marker, s, i, end);
      PassUnfolds(marker, a, i, end);
      assert s[..start] == a[..start] && s[start..end] == a[start..end] && s[end..] == a[end..] + [c] + b;
      PassSplits(marker, a[end..], c, b);
    } else {
      FirstInPrefix(marker.text, s, |a|);
      NothingToPass(marker, a);
      PassSkips(marker, s, |a|);
    }
  }

  lemma {:induction false} PassesSplit(markers: seq<Marker>, a: string, c: char, b: string, count: nat)
    requires count <= |markers| && forall marker | marker in markers :: WellFormed(marker) && marker.text != ""
    requires IsLineBreak(c)
    ensures RunPasses(markers, a + [c] + b, count) == RunPasses(markers, a, count) + [c] + RunPasses(markers, b, count)
    decreases count
  {
    hide Pass, WellFormed, IsLineBreak;
    if count > 0 {
      PassesSplit(markers, a, c, b, count - 1);
      PassSplits(markers[count - 1], RunPasses(markers, a, count - 1), c, RunPasses(markers, b, count - 1));
    }
  }

  /** Lines put together with these characters between them. */
  function Joined(lines: seq<string>, breaks: seq<char>): string
    requires |lines| == |breaks| + 1
  {
    if breaks == [] then lines[0]
    else Joined(lines[..|breaks|], breaks[..|breaks| - 1]) + [breaks[|breaks| - 1]] + lines[|breaks|]
  }

  function RedactLines(lines: seq<string>): (redacted: seq<string>)
    ensures |redacted| == |lines| && forall i :: 0 <= i < |lines| ==> redacted[i] == RedactAll(lines[i])
  {
    seq(|lines|, i requires 0 <= i < |lines| => RedactAll(lines[i]))
  }

  /** All passes together work on each line on its own, with carriage returns and line feeds between them
      as they are, so a line without a value to hide stays as it is whatever stands on the other lines. */
  lemma {:induction false} RedactsLineByLine(lines: seq<string>, breaks: seq<char>)
    requires |lines| == |breaks| + 1 && forall i :: 0 <= i < |breaks| ==> IsLineBreak(breaks[i])
    ensures RedactAll(Joined(lines, breaks)) == Joined(RedactLines(lines), breaks)
    ensures forall i :: 0 <= i < |lines| && FullyClean(lines[i]) ==> RedactLines(lines)[i] == lines[i]
    decreases |breaks|
  {
    hide FullyClean, RunPasses, WellFormed, IsLineBreak;
    if breaks != [] {
      var init, separator, last := lines[..|breaks|], breaks[|breaks| - 1], lines[|breaks|];
      RedactsLineByLine(init, breaks[..|breaks| - 1]);
      assert RedactLines(lines)[..|breaks|] == RedactLines(init);
      TableIsWellFormed();
      TableHasTexts();
      PassesSplit(MARKERS, Joined(init, breaks[..|breaks| - 1]), separator, last, |MARKERS|);
    }
    forall i | 0 <= i < |lines| && FullyClean(lines[i]) ensures RedactLines(lines)[i] == lines[i] {
      RedactionIsCompleteAndStable(lines[i]);
    }
  }

  // ---- sanitizing a log record -----------------------------------------------------

  datatype LogDetail = LogDetail(name: string, value: string)

  datatype LogRecord = LogRecord(source: string, title: string, message: string, details: seq<LogDetail>)

  const SENSITIVE_WORDS: seq<string> :=
    ["authorization", "cookie", "credential", "password", "privatekey", "secret", "token"]

  predicate IsAsciiAlphanumeric(c: char) {
    'a' <= c <= 'z' || 'A' <= c <= 'Z' || '0' <= c <= '9'
  }

  function Normalized(name: string): string {
    if name == "" then ""
    else (if IsAsciiAlphanumeric(name[0]) then [LowerChar(name[0])] else "") + Normalized(name[1..])
  }

  predicate SensitiveLabel(name: string) {
    exists w, i | 0 <= w < |SENSITIVE_WORDS| && 0 <= i <= |Normalized(name)| ::
      SENSITIVE_WORDS[w] <= Normalized(name)[i..]
  }

  /** Of a name only the ASCII letters and digits count, the letters in lower case. */
  lemma {:induction false} NormalizedLetterwise(name: string, rest: string)
    ensures Normalized(name + rest) == Normalized(name) + Normalized(rest)
    ensures |name| == 1 ==>
              var c := name[0]; var n := c as int;
              Normalized(name) == if 0x30 <= n < 0x3A || 0x61 <= n < 0x7B then [c]
                                  else if 0x41 <= n < 0x5B then [(n + 32) as char] else ""
  {
    hide IsAsciiAlphanumeric, LowerChar;
    if name == "" {
      assert name + rest == rest;
    } else {
      NormalizedLetterwise(name[1..], rest);
      assert (name + rest)[1..] == name[1..] + rest;
      OneLetter(name[0]);
    }
  }

  lemma OneLetter(c: char)
    ensures var n := c as int;
            (if IsAsciiAlphanumeric(c) then [LowerChar(c)] else "")
            == if 0x30 <= n < 0x3A || 0x61 <= n < 0x7B then [c]
               else if 0x41 <= n < 0x5B then [(n + 32) as char] else ""
  {
  }

  /** A name is sensitive exactly when one of the words stands somewhere in what counts of it. */
  lemma SensitiveLabelIff(name: string)
    ensures SensitiveLabel(name) <==>
              exists before, word, after {:trigger before + word + after} ::
                word in SENSITIVE_WORDS && Normalized(name) == before + word + after
  {
    hide Normalized;
    var all := Normalized(name);
    if SensitiveLabel(name) {
      var w, i :| 0 <= w < |SENSITIVE_WORDS| && 0 <= i <= |all| && SENSITIVE_WORDS[w] <= all[i..];
      SplitAt(all, i, SENSITIVE_WORDS[w]);
      assert SENSITIVE_WORDS[w] in SENSITIVE_WORDS;
    }
    if before, word, after :| word in SENSITIVE_WORDS && all == before + word + after {
      var w :| 0 <= w < |SENSITIVE_WORDS| && SENSITIVE_WORDS[w] == word;
      JoinedAt(before, word, after);
    }
  }

  lemma SplitAt(all: string, i: nat, word: string)
    requires i <= |all| && word <= all[i..]
    ensures i + |word| <= |all| && all == all[..i] + word + all[i + |word|..]
  {
  }

  lemma JoinedAt(before: string, word: string, after: string)
    ensures word <= (before + word + after)[|before|..]
  {
    assert (before + word + after)[|before|..] == word + after;
  }

  /** Every free text is clean and every sensitively named detail shows only the replacement. */
  ghost predicate Sanitized(log: LogRecord) {
    && FullyClean(log.source) && FullyClean(log.title) && FullyClean(log.message)
    && forall i :: 0 <= i < |log.details| ==> SanitizedDetail(log.details[i])
  }

  ghost predicate SanitizedDetail(detail: LogDetail) {
    if SensitiveLabel(detail.name) then detail.value == REDACTED else FullyClean(detail.value)
  }

  /** Sanitizing yields a sanitized record with the same detail names, and leaves sanitized records alone. */
  method SanitizeLog(log: LogRecord) returns (result: LogRecord)
    ensures Sanitized(result)
    ensures |result.details| == |log.details|
    ensures forall i :: 0 <= i < |log.details| ==> result.details[i].name == log.details[i].name
    ensures Sanitized(log) ==> result == log
  {
    hide FullyClean, RunPasses, SensitiveLabel;
    var source := RedactEmbeddedCredentials(log.source);
    var title := RedactEmbeddedCredentials(log.title);
    var message := RedactEmbeddedCredentials(log.message);
    RedactionIsCompleteAndStable(log.source);
    RedactionIsCompleteAndStable(log.title);
    RedactionIsCompleteAndStable(log.message);
    var details: seq<LogDetail> := [];
    for i := 0 to |log.details|
      invariant |details| == i
      invariant forall j :: 0 <= j < i ==> SanitizedDetail(details[j]) && details[j].name == log.details[j].name
      invariant forall j :: 0 <= j < i && SanitizedDetail(log.details[j]) ==> details[j] == log.details[j]
    {
      var detail := log.details[i];
      if SensitiveLabel(detail.name) {
        details := details + [LogDetail(detail.name, REDACTED)];
      } else {
        var value := RedactEmbeddedCredentials(detail.value);
        RedactionIsCompleteAndStable(detail.value);
        details := details + [LogDetail(detail.name, value)];
      }
    }
    result := LogRecord(source, title, message, details);
  }
}
