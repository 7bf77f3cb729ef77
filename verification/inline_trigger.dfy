/** The inline command trigger of src/contentScript.js. Typing text that
    matches `/\/.*?;/` into an editable element removes the first match
    from the element and sends the part of it after the first space as an
    inline-completion prompt. The regular expression is stated here by
    hand: a match is a `/`, then characters other than line terminators,
    then a `;`, and the one chosen is the leftmost and, from there, the
    shortest. */
module InlineTrigger {
  import opened Wrappers
  import opened Text
  import opened Router
  import opened ResponseListeners

  /** The characters the regular-expression `.` does not match. */
  predicate IsLineTerminator(c: char): (b: bool)
    ensures b <==> c as int in {0x000A, 0x000D, 0x2028, 0x2029}
  {
    c == '\n' || c == '\r' || c == '\U{2028}' || c == '\U{2029}'
  }

  ghost predicate NoTerminator(s: string, lo: nat, hi: nat)
    requires lo <= hi <= |s|
  {
    forall k :: lo <= k < hi ==> !IsLineTerminator(s[k])
  }

  /** `s[b..e]` is a match of `/\/.*?;/`, shortest or not. */
  ghost predicate IsSpan(s: string, b: nat, e: nat) {
    b + 2 <= e <= |s| && s[b] == '/' && s[e - 1] == ';' && NoTerminator(s, b + 1, e - 1)
  }

  /** Scanning after a `/` from index `i`: the end of the shortest match,
      if a `;` comes before any line terminator. */
  function SpanEnd(s: string, i: nat): (e: Option<nat>)
    requires i <= |s|
    ensures e.Some? ==> i < e.value <= |s| && s[e.value - 1] == ';' && NoTerminator(s, i, e.value - 1)
    ensures e.Some? ==> forall k :: i <= k < e.value - 1 ==> s[k] != ';'
    ensures e.None? ==> forall j :: i <= j < |s| && s[j] == ';' ==> !NoTerminator(s, i, j)
    decreases |s| - i
  {
    if i == |s| then None
    else if s[i] == ';' then Some(i + 1)
    else if IsLineTerminator(s[i]) then None
    else SpanEnd(s, i + 1)
  }

  /** The leftmost match starting at or after `b`. */
  function MatchFrom(s: string, b: nat): Option<(nat, nat)>
    requires b <= |s|
    decreases |s| - b
  {
    if b == |s| then None
    else if s[b] == '/' && SpanEnd(s, b + 1).Some? then Some((b, SpanEnd(s, b + 1).value))
    else MatchFrom(s, b + 1)
  }

  /** `newText.match(REGEX_PATTERN)`, as the bounds of the match. */
  function FindMatch(s: string): (m: Option<(nat, nat)>)
    ensures m.Some? ==> IsSpan(s, m.value.0, m.value.1)
  {
    MatchFromLeftmostShortest(s, 0);
    MatchFrom(s, 0)
  }

  /** The match found is a match, and every other match starts later, or
      starts at the same place and ends no earlier; when none is found,
      there is none. */
  lemma {:induction false} MatchFromLeftmostShortest(s: string, b: nat)
    requires b <= |s|
    ensures var m := MatchFrom(s, b);
      && (m.Some? ==> b <= m.value.0 && IsSpan(s, m.value.0, m.value.1))
      && (m.Some? ==> forall b2, e2 :: b <= b2 && IsSpan(s, b2, e2) ==>
                        m.value.0 < b2 || (m.value.0 == b2 && m.value.1 <= e2))
      && (m.None? ==> forall b2, e2 :: b <= b2 && IsSpan(s, b2, e2) ==> false)
    decreases |s| - b
  {
    if b < |s| {
      MatchFromLeftmostShortest(s, b + 1);
      var end := if b + 1 <= |s| then SpanEnd(s, b + 1) else None;
      forall e2 | IsSpan(s, b, e2)
        ensures end.Some? && end.value <= e2
      {
        assert s[e2 - 1] == ';';
      }
    }
  }

  /** `REGEX_PATTERN.test(newText)` holds exactly when a `/` is followed,
      later on the same line, by a `;`. */
  lemma TriggerCharacterisation(s: string)
    ensures FindMatch(s).Some? <==>
              exists i, j :: 0 <= i < j < |s| && s[i] == '/' && s[j] == ';' && NoTerminator(s, i + 1, j)
  {
    MatchFromLeftmostShortest(s, 0);
    if FindMatch(s).Some? {
      var (b, e) := FindMatch(s).value;
      assert 0 <= b < e - 1 < |s| && s[b] == '/' && s[e - 1] == ';' && NoTerminator(s, b + 1, e - 1);
    }
    if exists i, j :: 0 <= i < j < |s| && s[i] == '/' && s[j] == ';' && NoTerminator(s, i + 1, j) {
      var i, j :| 0 <= i < j < |s| && s[i] == '/' && s[j] == ';' && NoTerminator(s, i + 1, j);
      assert IsSpan(s, i, j + 1);
    }
  }

  /** `newText.replace(REGEX_PATTERN, '')`: the first match removed. */
  function Stripped(s: string): (r: string)
    ensures FindMatch(s).None? ==> r == s
    ensures FindMatch(s).Some? ==>
              var (b, e) := FindMatch(s).value;
              b < e <= |s| && r == s[..b] + s[e..]
  {
    MatchFromLeftmostShortest(s, 0);
    match FindMatch(s)
    case None => s
    case Some((b, e)) => s[..b] + s[e..]
  }

  /** Only the match is removed: putting it back restores the text. */
  lemma StrippedRestores(s: string)
    requires FindMatch(s).Some?
    ensures var (b, e) := FindMatch(s).value;
            && b < e <= |s|
            && Stripped(s)[..b] == s[..b]
            && Stripped(s)[b..] == s[e..]
            && Stripped(s)[..b] + s[b..e] + Stripped(s)[b..] == s
  {
    var (b, e) := FindMatch(s).value;
    var r := Stripped(s);
    assert r[..b] == s[..b];
    assert r[b..] == s[e..];
    assert s[..b] + s[b..e] + s[e..] == s;
  }

  // ---------------------------------------------------------------------
  // Parsing the match.

  /** `s.substring(1)` */
  function Substring1(s: string): (r: string)
    ensures |s| >= 1 ==> [s[0]] + r == s
    ensures |s| == 0 ==> r == ""
  {
    if |s| >= 1 then s[1..] else ""
  }

  /** `s.slice(0, -1)` */
  function DropLast(s: string): (r: string)
    ensures |s| >= 1 ==> r + [s[|s| - 1]] == s
    ensures |s| == 0 ==> r == ""
  {
    if |s| >= 1 then s[..|s| - 1] else ""
  }

  datatype Command = Command(promptType: string, prompt: string)

  /** The split of the match on spaces: the head without its `/` is the
      prompt type, the rest re-joined without its last character is the
      prompt. */
  function ParseCommand(m: string): (c: Command)
    ensures ' ' !in c.promptType
  {
    var arr := Split(m, ' ');
    Command(Substring1(arr[0]), DropLast(Join(arr[1..], ' ')))
  }

  /** Without a space the prompt type is the whole match after the `/`,
      `;` included, and the prompt is empty. */
  lemma ParseWithoutSpace(m: string)
    requires ' ' !in m
    ensures ParseCommand(m) == Command(Substring1(m), "")
  {
    SplitWithoutSeparator(m, ' ');
    var arr := Split(m, ' ');
    var none: seq<string> := [];
    assert arr[1..] == none;
  }

  /** With a space at `k`, the first one, the prompt type is what lies
      between the `/` and the space, and the prompt is the rest without its
      last character. */
  lemma ParseAtFirstSpace(m: string, k: nat)
    requires k < |m| && m[k] == ' ' && ' ' !in m[..k]
    ensures ParseCommand(m) == Command(Substring1(m[..k]), DropLast(m[k + 1..]))
  {
    SplitAtFirst(m, ' ', k);
  }

  /** For a match, the two cases in the match's own terms. */
  lemma ParseMatch(m: string)
    requires |m| >= 2 && m[0] == '/' && m[|m| - 1] == ';'
    ensures ' ' !in m ==> ParseCommand(m) == Command(m[1..], "")
    ensures forall k :: 0 <= k < |m| && m[k] == ' ' && ' ' !in m[..k] ==>
              1 <= k < |m| - 1 && ParseCommand(m) == Command(m[1..k], m[k + 1..|m| - 1])
  {
    if ' ' !in m {
      ParseWithoutSpace(m);
    }
    forall k | 0 <= k < |m| && m[k] == ' ' && ' ' !in m[..k]
      ensures 1 <= k < |m| - 1 && ParseCommand(m) == Command(m[1..k], m[k + 1..|m| - 1])
    {
      ParseAtFirstSpace(m, k);
      assert m[..k][1..] == m[1..k];
    }
  }

  /** The text a command is typed as. */
  function Typed(c: Command): string {
    "/" + c.promptType + " " + c.prompt + ";"
  }

  /** Parsing inverts typing, for a prompt type without spaces. */
  lemma ParseTyped(c: Command)
    requires ' ' !in c.promptType
    ensures ParseCommand(Typed(c)) == c
  {
    var m := Typed(c);
    var k := |c.promptType| + 1;
    assert m[..k] == "/" + c.promptType;
    assert m[k + 1..] == c.prompt + ";";
    ParseAtFirstSpace(m, k);
    assert (c.prompt + ";")[..|c.prompt|] == c.prompt;
  }

  // ---------------------------------------------------------------------
  // The input handlers.

  /** `handleRegexMatch`: the element text loses the match, a listener for
      the request is attached to the element, and the prompt is sent. */
  method HandleRegexMatch(newText: string, requestId: string)
    returns (listener: InlineCompletionListener, request: Inbound)
    requires FindMatch(newText).Some?
    ensures fresh(listener)
    ensures listener.requestId == requestId && listener.attached
    ensures listener.text == Stripped(newText)
    ensures var (b, e) := FindMatch(newText).value;
            e <= |newText| && request == InlineCompletionRequest(ParseCommand(newText[b..e]).prompt, requestId)
  {
    var (b, e) := FindMatch(newText).value;
    MatchFromLeftmostShortest(newText, 0);
    var matched := newText[b..e];
    listener := new InlineCompletionListener(requestId, Stripped(newText));
    var arr := Split(matched, ' ');
    var promptType := Substring1(arr[0]);
    var prompt := DropLast(Join(arr[1..], ' '));
    request := InlineCompletionRequest(prompt, requestId);
  }

  /** `handleInputEvent`: only text with a match triggers a request. */
  method HandleInputEvent(newText: string, requestId: string)
    returns (listener: Option<InlineCompletionListener>, request: Option<Inbound>)
    ensures listener.Some? <==> FindMatch(newText).Some?
    ensures request.Some? <==> FindMatch(newText).Some?
    ensures listener.Some? ==>
              && fresh(listener.value)
              && listener.value.requestId == requestId && listener.value.attached
              && listener.value.text == Stripped(newText)
    ensures request.Some? ==>
              var (b, e) := FindMatch(newText).value;
              e <= |newText| && request.value == InlineCompletionRequest(ParseCommand(newText[b..e]).prompt, requestId)
  {
    if FindMatch(newText).Some? {
      var l, r := HandleRegexMatch(newText, requestId);
      listener, request := Some(l), Some(r);
    } else {
      listener, request := None, None;
    }
  }
}
