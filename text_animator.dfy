/** Letter-by-letter animation markup: the HTML-string builder and the per-letter span list. */
module TextAnimator {
  import opened Text

  const LETTER_OPEN := "<span class=\"letter\">"
  const LETTER_CLOSE := "</span>"
  const NBSP_ENTITY := "&nbsp;"
  const NBSP: char := '\U{00A0}'

  /** The markup for one letter outside a tag: a space becomes the `&nbsp;` entity. */
  function WrapLetter(c: char): string {
    LETTER_OPEN + (if c == ' ' then NBSP_ENTITY else [c]) + LETTER_CLOSE
  }

  /** The plain mode: every character wrapped, in order. */
  function WrapAll(s: string): string {
    if s == [] then [] else WrapLetter(s[0]) + WrapAll(s[1..])
  }

  /** Regrouping `head + rest + second` after rewriting both sides. */
  lemma Assemble(whole: string, first: string, restWhole: string, rest: string, second: string, head: string)
    requires whole == head + restWhole && restWhole == rest + second && first == head + rest
    ensures whole == first + second
  {
  }

  /** Wrapping distributes over concatenation, so the plain mode is a letter-wise map. */
  lemma {:induction false} WrapAllAppend(a: string, b: string)
    ensures WrapAll(a + b) == WrapAll(a) + WrapAll(b)
    decreases |a|
  {
    if a != [] {
      var ab := a + b;
      assert ab[0] == a[0] && ab[1..] == a[1..] + b;
      WrapAllAppend(a[1..], b);
      Assemble(WrapAll(ab), WrapAll(a), WrapAll(a[1..] + b), WrapAll(a[1..]), WrapAll(b), WrapLetter(a[0]));
    } else {
      assert a + b == b;
    }
  }

  /**
   * Reference meaning of the HTML-preserving mode: a '<' opens a tag copied verbatim up to and
   * including the next '>', or, with no '>' left, drops the rest; a stray '>' is copied; every
   * other character is wrapped as in the plain mode.
   */
  function TagAware(s: string): string
    decreases |s|
  {
    if s == [] then []
    else if s[0] == '<' then
      var k := IndexOf(s, '>');
      if k == |s| then [] else s[..k + 1] + TagAware(s[k + 1..])
    else if s[0] == '>' then ">" + TagAware(s[1..])
    else WrapLetter(s[0]) + TagAware(s[1..])
  }

  /** What the loop still adds to `result`, given its tag state and the unread input. */
  function Pending(inTag: bool, currentTag: string, rest: string): string {
    if !inTag then TagAware(rest)
    else
      var k := IndexOf(rest, '>');
      if k == |rest| then [] else currentTag + rest[..k + 1] + TagAware(rest[k + 1..])
  }

  /** `animateTextString`: the plain mode maps every letter, the HTML mode scans with tag state. */
  method AnimateTextString(text: string, preserveHtml: bool) returns (result: string)
    ensures result == if preserveHtml then TagAware(text) else WrapAll(text)
  {
    if !preserveHtml {
      return WrapAll(text);
    }
    result := "";
    var inTag := false;
    var currentTag := "";
    for i := 0 to |text|
      invariant !inTag ==> currentTag == []
      invariant result + Pending(inTag, currentTag, text[i..]) == TagAware(text)
    {
      var c := text[i];
      if c == '<' {
        StepIntoTag(result, inTag, currentTag, text, i, TagAware(text));
        inTag := true;
        currentTag := currentTag + [c];
      } else if c == '>' {
        StepClose(result, inTag, currentTag, text, i, TagAware(text));
        inTag := false;
        currentTag := currentTag + [c];
        result := result + currentTag;
        currentTag := "";
      } else if inTag {
        StepIntoTag(result, inTag, currentTag, text, i, TagAware(text));
        currentTag := currentTag + [c];
      } else if c == ' ' {
        StepLetter(result, text, i, TagAware(text));
        result := result + (LETTER_OPEN + NBSP_ENTITY + LETTER_CLOSE);
      } else {
        StepLetter(result, text, i, TagAware(text));
        result := result + (LETTER_OPEN + [c] + LETTER_CLOSE);
      }
    }
    PendingAtEnd(inTag, currentTag, text[|text|..]);
  }

  /** Nothing is pending once the input is exhausted; an open tag is dropped. */
  lemma PendingAtEnd(inTag: bool, currentTag: string, rest: string)
    requires rest == []
    ensures Pending(inTag, currentTag, rest) == []
  {
  }

  /** A '>' closes the open tag, or stands alone, and is emitted with it. */
  lemma StepClose(result: string, inTag: bool, currentTag: string, text: string, i: nat, target: string)
    requires i < |text| && text[i] == '>'
    requires !inTag ==> currentTag == []
    requires result + Pending(inTag, currentTag, text[i..]) == target
    ensures (result + (currentTag + [text[i]])) + Pending(false, "", text[i + 1..]) == target
  {
    PendingClose(inTag, currentTag, text, i);
    Regroup(result, currentTag + [text[i]], Pending(false, "", text[i + 1..]), target);
  }

  lemma Regroup(result: string, emitted: string, later: string, target: string)
    requires result + (emitted + later) == target
    ensures (result + emitted) + later == target
  {
  }

  /** The pending output at a '>' starts with the closed tag, or the bare '>'. */
  lemma PendingClose(inTag: bool, currentTag: string, text: string, i: nat)
    requires i < |text| && text[i] == '>'
    requires !inTag ==> currentTag == []
    ensures Pending(inTag, currentTag, text[i..]) == (currentTag + [text[i]]) + Pending(false, "", text[i + 1..])
  {
    var rest := text[i..];
    assert rest[1..] == text[i + 1..];
    if inTag {
      IndexOfUnique(rest, '>', 0);
      assert rest[..1] == [text[i]];
    } else {
      assert currentTag + [text[i]] == ">";
    }
  }

  /** A character outside a tag other than '<' and '>' is wrapped, a space as `&nbsp;`. */
  lemma StepLetter(result: string, text: string, i: nat, target: string)
    requires i < |text| && text[i] != '<' && text[i] != '>'
    requires result + Pending(false, "", text[i..]) == target
    ensures (result + WrapLetter(text[i])) + Pending(false, "", text[i + 1..]) == target
  {
    var rest := text[i..];
    assert rest[1..] == text[i + 1..];
  }

  /** Reading a character other than '>' into the (possibly just opened) tag keeps the pending output. */
  lemma StepIntoTag(result: string, inTag: bool, currentTag: string, text: string, i: nat, target: string)
    requires i < |text| && text[i] != '>' && (inTag || text[i] == '<')
    requires !inTag ==> currentTag == []
    requires result + Pending(inTag, currentTag, text[i..]) == target
    ensures result + Pending(true, currentTag + [text[i]], text[i + 1..]) == target
  {
    PendingIntoTag(currentTag, text, i);
  }

  /** Reading one more non-'>' character into an open tag leaves the pending output unchanged. */
  lemma PendingIntoTag(currentTag: string, text: string, i: nat)
    requires i < |text| && text[i] != '>'
    ensures Pending(true, currentTag, text[i..]) == Pending(true, currentTag + [text[i]], text[i + 1..])
  {
    var rest := text[i..];
    assert rest[1..] == text[i + 1..];
    var k' := IndexOf(rest[1..], '>');
    IndexOfUnique(rest, '>', 1 + k');
    var k := IndexOf(rest, '>');
    if k' < |rest[1..]| {
      assert rest[..k + 1] == [rest[0]] + rest[1..][..k' + 1];
      assert rest[k + 1..] == rest[1..][k' + 1..];
    }
  }

  /** Rendering input that starts with a character other than '<'. */
  lemma TagAwareStep(s: string)
    requires s != [] && s[0] != '<'
    ensures TagAware(s) == (if s[0] == '>' then ">" else WrapLetter(s[0])) + TagAware(s[1..])
  {
  }

  /** Text without angle brackets renders the same in both modes. */
  lemma {:induction false} NoTagsSameOutput(s: string)
    requires '<' !in s && '>' !in s
    ensures TagAware(s) == WrapAll(s)
  {
    if s != [] {
      NoOpenTail(s);
      assert s[0] in s && forall c :: c in s[1..] ==> c in s;
      NoTagsSameOutput(s[1..]);
      TagAwareStep(s);
    }
  }

  /** Input with no '<' never opens a tag, so it renders independently of what follows. */
  lemma {:induction false} NoOpenAppend(a: string, b: string)
    requires '<' !in a
    ensures TagAware(a + b) == TagAware(a) + TagAware(b)
    decreases |a|
  {
    if a == [] {
      assert a + b == b;
    } else {
      NoOpenTail(a);
      var t := a[1..];
      var ab := a + b;
      assert ab[0] == a[0] && ab[1..] == t + b;
      NoOpenAppend(t, b);
      TagAwareStep(a);
      TagAwareStep(ab);
      Assemble(TagAware(ab), TagAware(a), TagAware(t + b), TagAware(t), TagAware(b),
        if a[0] == '>' then ">" else WrapLetter(a[0]));
    }
  }

  lemma NoOpenTail(a: string)
    requires a != [] && '<' !in a
    ensures a[0] != '<' && '<' !in a[1..]
  {
    assert a[0] in a;
    assert forall c :: c in a[1..] ==> c in a;
  }

  /** A '>' outside any tag is copied as a bare '>'. */
  lemma StrayCloseKept(a: string, b: string)
    requires '<' !in a
    ensures TagAware(a + ">" + b) == TagAware(a) + ">" + TagAware(b)
  {
    var gb := ">" + b;
    assert a + ">" + b == a + gb;
    assert gb[0] == '>' && gb[1..] == b;
    NoOpenAppend(a, gb);
    TagAwareStep(gb);
    Assemble(TagAware(a + gb), TagAware(a) + ">", TagAware(gb), ">", TagAware(b), TagAware(a));
  }

  /** A complete tag in front of the rest of the input is copied verbatim. */
  lemma TagCopied(tag: string, rest: string)
    requires |tag| >= 2 && tag[0] == '<' && tag[|tag| - 1] == '>'
    requires '>' !in tag[..|tag| - 1]
    ensures TagAware(tag + rest) == tag + TagAware(rest)
  {
    var s := tag + rest;
    var body := tag[..|tag| - 1];
    assert forall j :: 0 <= j < |tag| - 1 ==> s[j] == body[j];
    IndexOfUnique(s, '>', |tag| - 1);
    assert s[..|tag|] == tag;
    assert s[|tag|..] == rest;
  }

  /** An unterminated tag at the end of the input, with everything after its '<', is dropped. */
  lemma {:induction false} UnterminatedDropped(s: string, tail: string)
    requires '>' !in tail
    ensures TagAware(s + ['<'] + tail) == TagAware(s)
    decreases |s|
  {
    var t := s + ['<'] + tail;
    if s == [] {
      assert t == ['<'] + tail;
      assert forall j :: 1 <= j < |t| ==> t[j] == tail[j - 1];
      IndexOfUnique(t, '>', |t|);
    } else {
      assert t[1..] == s[1..] + ['<'] + tail;
      if s[0] == '<' {
        var k := IndexOf(s, '>');
        if k < |s| {
          assert forall j :: 0 <= j < |s| ==> t[j] == s[j];
          IndexOfUnique(t, '>', k);
          assert t[..k + 1] == s[..k + 1];
          assert t[k + 1..] == s[k + 1..] + ['<'] + tail;
          UnterminatedDropped(s[k + 1..], tail);
        } else {
          assert forall j :: |s| < j < |t| ==> t[j] == tail[j - |s| - 1];
          IndexOfUnique(t, '>', |t|);
        }
      } else {
        UnterminatedDropped(s[1..], tail);
      }
    }
  }

  /** One element of `processText`: its key and its text. */
  datatype LetterSpan = LetterSpan(key: nat, content: char)

  /** The text a span shows: a space is replaced by a no-break space. */
  function Shown(c: char): char {
    if c == ' ' then NBSP else c
  }

  function SpansFrom(s: string, offset: nat): (r: seq<LetterSpan>)
    ensures |r| == |s|
    ensures forall i :: 0 <= i < |s| ==> r[i] == LetterSpan(offset + i, Shown(s[i]))
  {
    if s == [] then [] else [LetterSpan(offset, Shown(s[0]))] + SpansFrom(s[1..], offset + 1)
  }

  /** `processText`: one span per character, keyed by its index. */
  function ProcessText(s: string): (r: seq<LetterSpan>)
    ensures |r| == |s|
    ensures forall i :: 0 <= i < |s| ==> r[i].key == i && r[i].content == Shown(s[i])
  {
    SpansFrom(s, 0)
  }

  /** The span list and the plain-mode string agree letter by letter, rendering a no-break space as `&nbsp;`. */
  lemma ProcessTextMatchesString(s: string, i: nat)
    requires NBSP !in s && i < |s|
    ensures var c := ProcessText(s)[i].content;
      WrapLetter(s[i]) == LETTER_OPEN + (if c == NBSP then NBSP_ENTITY else [c]) + LETTER_CLOSE
  {
    assert s[i] in s;
  }
}
