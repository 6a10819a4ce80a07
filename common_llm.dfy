/**
 * The shared structured-invocation layer: every specialised model class
 * composes its prompt from a shared command segment followed by its own
 * segments, is constructed once per class, and decodes the backend's text
 * answer into the value under the `"result"` key of a JSON object.
 *
 * The backend call itself (the prompt template bound to the chat model) is
 * a function parameter; so is `json.loads`. Both backend calls are made
 * while holding a process-wide semaphore of one permit, which is not
 * modelled.
 */
module CommonLlm {
  import opened Wrappers
  import opened PyStr
  import opened ErrorCode

  // ---------------------------------------------------------------------
  // Cleaning the backend's answer

  const JSON_FENCE: string := "```json"
  const FENCE: string := "```"
  const THINK_OPEN: string := "<think>"
  const THINK_CLOSE: string := "</think>"

  /**
   * `re.sub(r'<think>.*?</think>\s*', '', s, flags=re.DOTALL)`: scanning
   * left to right, a `<think>` that has a later `</think>` is deleted up to
   * the first such `</think>`, together with the whitespace right after it;
   * the scan resumes after the deleted text and never rescans it.
   */
  function RemoveThinkBlocks(s: string): string
    decreases |s|
  {
    if |s| == 0 then ""
    else if StartsWith(s, THINK_OPEN) && IndexOf(s[|THINK_OPEN|..], THINK_CLOSE).Some? then
      var end := |THINK_OPEN| + IndexOf(s[|THINK_OPEN|..], THINK_CLOSE).value + |THINK_CLOSE|;
      RemoveThinkBlocks(TrimStart(s[end..]))
    else [s[0]] + RemoveThinkBlocks(s[1..])
  }

  /**
   * `CommonLLM.clean_json_string`: strip; drop a leading "```json" fence;
   * drop one trailing "```" fence; delete the think blocks; strip again.
   * The result never begins or ends with whitespace.
   */
  function CleanJsonString(text: string): (r: string)
    ensures NoSurroundingSpace(r)
  {
    Strip(RemoveThinkBlocks(DropClosingFence(DropOpeningFence(Strip(text)))))
  }

  /**
   * Drops a "```json" opening fence, and the whitespace after it, from
   * stripped text; text without that prefix is kept as it is.
   */
  function DropOpeningFence(t: string): (r: string)
    ensures StartsWith(t, JSON_FENCE) ==> NoSurroundingSpace(r) && |r| <= |t| - |JSON_FENCE|
    ensures !StartsWith(t, JSON_FENCE) ==> r == t
  {
    if StartsWith(t, JSON_FENCE) then Strip(t[|JSON_FENCE|..]) else t
  }

  /**
   * Drops one "```" closing fence, and the whitespace before it, from
   * stripped text; text without that suffix is kept as it is.
   */
  function DropClosingFence(t: string): (r: string)
    ensures EndsWith(t, FENCE) ==> NoSurroundingSpace(r) && |r| <= |t| - |FENCE|
    ensures !EndsWith(t, FENCE) ==> r == t
  {
    if EndsWith(t, FENCE) then Strip(t[..|t| - |FENCE|]) else t
  }

  /** Think-block removal only deletes characters. */
  lemma {:induction false} RemoveThinkBlocksIsSubseq(s: string)
    ensures IsSubseq(RemoveThinkBlocks(s), s)
    decreases |s|
  {
    if |s| > 0 {
      if StartsWith(s, THINK_OPEN) && IndexOf(s[|THINK_OPEN|..], THINK_CLOSE).Some? {
        var end := |THINK_OPEN| + IndexOf(s[|THINK_OPEN|..], THINK_CLOSE).value + |THINK_CLOSE|;
        var tail := s[end..];
        var rest := TrimStart(tail);
        RemoveThinkBlocksIsSubseq(rest);
        SuffixIsSubseq(tail, |tail| - |rest|);
        SuffixIsSubseq(s, end);
        SubseqTrans(RemoveThinkBlocks(rest), rest, tail);
        SubseqTrans(RemoveThinkBlocks(rest), tail, s);
      } else {
        RemoveThinkBlocksIsSubseq(s[1..]);
        SubseqPrependBoth(RemoveThinkBlocks(s[1..]), s[1..], s[0]);
        assert [s[0]] + s[1..] == s;
      }
    }
  }

  /**
   * Text without a `<think>`, or without a `</think>`, has no block to
   * delete: an unclosed `<think>` is left as it is.
   */
  lemma {:induction false} RemoveThinkBlocksUnchanged(s: string)
    requires IndexOf(s, THINK_OPEN).None? || IndexOf(s, THINK_CLOSE).None?
    ensures RemoveThinkBlocks(s) == s
    decreases |s|
  {
    if |s| > 0 {
      if IndexOf(s, THINK_OPEN).None? {
        assert s[0..] == s;
        IndexOfNoneSuffix(s, THINK_OPEN, 1);
      } else {
        if StartsWith(s, THINK_OPEN) {
          IndexOfNoneSuffix(s, THINK_CLOSE, |THINK_OPEN|);
        }
        IndexOfNoneSuffix(s, THINK_CLOSE, 1);
      }
      RemoveThinkBlocksUnchanged(s[1..]);
      assert [s[0]] + s[1..] == s;
    }
  }

  /** The first `</think>` after a body that has none is the one right after it. */
  lemma FirstCloseAfter(body: string, rest: string)
    requires IndexOf(body, THINK_CLOSE).None?
    ensures IndexOf(body + THINK_CLOSE + rest, THINK_CLOSE) == Some(|body|)
  {
    var t := body + THINK_CLOSE + rest;
    assert t[|body|..][..|THINK_CLOSE|] == THINK_CLOSE;
    forall j | 0 <= j < |body| ensures !StartsWith(t[j..], THINK_CLOSE) {
      if j + |THINK_CLOSE| <= |body| {
        assert t[j..][..|THINK_CLOSE|] == body[j..][..|THINK_CLOSE|];
      } else {
        var m := |body| - j;
        assert t[j + m] == '<';
        assert THINK_CLOSE[m] != '<';
        assert |THINK_CLOSE| <= |t[j..]| ==> t[j..][..|THINK_CLOSE|][m] != THINK_CLOSE[m];
      }
    }
    IndexOfAt(t, THINK_CLOSE, |body|);
  }

  /**
   * A leading think block whose body holds no `</think>` is deleted with the
   * whitespace after it, and the scan goes on from the rest.
   */
  lemma RemoveLeadingThinkBlock(body: string, rest: string)
    requires IndexOf(body, THINK_CLOSE).None?
    ensures RemoveThinkBlocks(THINK_OPEN + body + THINK_CLOSE + rest)
         == RemoveThinkBlocks(TrimStart(rest))
  {
    var s := THINK_OPEN + body + THINK_CLOSE + rest;
    assert s[..|THINK_OPEN|] == THINK_OPEN;
    assert s[|THINK_OPEN|..] == body + THINK_CLOSE + rest;
    FirstCloseAfter(body, rest);
    assert s[|THINK_OPEN| + |body| + |THINK_CLOSE|..] == rest;
  }

  /** Text with no '<' before a think block is kept, and the scan goes on after it. */
  lemma {:induction false} RemoveThinkBlocksPlainPrefix(a: string, t: string)
    requires '<' !in a
    ensures RemoveThinkBlocks(a + t) == a + RemoveThinkBlocks(t)
    decreases |a|
  {
    if |a| == 0 {
      assert a + t == t;
    } else {
      calc {
        RemoveThinkBlocks(a + t);
        { assert (a + t)[0] == a[0] && (a + t)[1..] == a[1..] + t;
          RemoveThinkBlocksKeepsHead(a + t); }
        [a[0]] + RemoveThinkBlocks(a[1..] + t);
        { RemoveThinkBlocksPlainPrefix(a[1..], t); }
        [a[0]] + (a[1..] + RemoveThinkBlocks(t));
        { ConsAppend(a, RemoveThinkBlocks(t)); }
        a + RemoveThinkBlocks(t);
      }
    }
  }

  /** A first character other than '<' cannot start a block: it is kept and the scan moves on. */
  lemma RemoveThinkBlocksKeepsHead(s: string)
    requires |s| > 0 && s[0] != '<'
    ensures RemoveThinkBlocks(s) == [s[0]] + RemoveThinkBlocks(s[1..])
  {
    assert !StartsWith(s, THINK_OPEN) by {
      if |THINK_OPEN| <= |s| {
        assert s[..|THINK_OPEN|][0] == s[0];
      }
    }
  }

  /**
   * A think block after text with no '<' is deleted, with the whitespace
   * after it, wherever it starts: the text before it is kept.
   */
  lemma RemoveThinkBlocksAfterPlain(a: string, body: string, rest: string)
    requires '<' !in a && IndexOf(body, THINK_CLOSE).None?
    ensures RemoveThinkBlocks(a + THINK_OPEN + body + THINK_CLOSE + rest)
         == a + RemoveThinkBlocks(TrimStart(rest))
  {
    var block := THINK_OPEN + body + THINK_CLOSE + rest;
    assert a + THINK_OPEN + body + THINK_CLOSE + rest == a + block;
    RemoveThinkBlocksPlainPrefix(a, block);
    RemoveLeadingThinkBlock(body, rest);
  }

  /** A text that does not start with `<think>` keeps its first character, and the scan moves on. */
  lemma RemoveThinkBlocksNoOpenHead(s: string)
    requires |s| > 0 && !StartsWith(s, THINK_OPEN)
    ensures RemoveThinkBlocks(s) == [s[0]] + RemoveThinkBlocks(s[1..])
  {
  }

  /**
   * The scan never goes back over deleted text: a block deleted from the
   * middle of "<thi" … "nk>" joins the two halves into a `<think>` of its
   * own, and that marker is kept rather than opening a new match.
   */
  lemma RemoveThinkBlocksNoRescan(body: string, rest: string)
    requires IndexOf(body, THINK_CLOSE).None?
    ensures RemoveThinkBlocks("<thi" + THINK_OPEN + body + THINK_CLOSE + "nk>" + rest)
         == THINK_OPEN + RemoveThinkBlocks(rest)
  {
    var lt, front, back := "<", "thi", "nk>";
    assert lt + front + back == THINK_OPEN;
    assert "<thi" == lt + front;
    JoinedHalvesKept(lt, front, back, body, rest);
  }

  /**
   * The general form: '<' and three characters with no '<', a block, then
   * text with no '<' that does not start with whitespace. The block goes
   * and the text around it is kept, whatever the kept text spells.
   */
  lemma JoinedHalvesKept(lt: string, front: string, back: string, body: string, rest: string)
    requires lt == "<" && |front| == 3 && '<' !in front
    requires '<' !in back && |back| > 0 && !IsSpace(back[0])
    requires IndexOf(body, THINK_CLOSE).None?
    ensures RemoveThinkBlocks(lt + front + THINK_OPEN + body + THINK_CLOSE + back + rest)
         == lt + front + back + RemoveThinkBlocks(rest)
  {
    var u := back + rest;
    var t := front + THINK_OPEN + body + THINK_CLOSE + u;
    assert lt + front + THINK_OPEN + body + THINK_CLOSE + back + rest == lt + t;
    assert t[3] == THINK_OPEN[0];
    LtThenLtKept(t);
    RemoveThinkBlocksAfterPlain(front, body, u);
    assert TrimStart(u) == u by {
      assert u[0] == back[0];
    }
    RemoveThinkBlocksPlainPrefix(back, rest);
    SeqAssoc3(lt, front, back, RemoveThinkBlocks(rest));
  }

  /** A '<' followed by a text with '<' at index 3 cannot start `<think>`: the first '<' is kept. */
  lemma LtThenLtKept(t: string)
    requires |t| > 3 && t[3] == '<'
    ensures RemoveThinkBlocks("<" + t) == "<" + RemoveThinkBlocks(t)
  {
    var s := "<" + t;
    assert s[4] == t[3];
    assert !StartsWith(s, THINK_OPEN) by {
      if |THINK_OPEN| <= |s| {
        assert s[..|THINK_OPEN|][4] == s[4];
      }
    }
    RemoveThinkBlocksNoOpenHead(s);
    assert s[1..] == t;
  }

  /** Regrouping a four-part concatenation. */
  lemma SeqAssoc3<T>(a: seq<T>, b: seq<T>, c: seq<T>, d: seq<T>)
    ensures a + (b + (c + d)) == (a + b + c) + d
  {
  }

  /** `</think>` on its own is not a block, so the scan keeps it. */
  lemma RemoveThinkBlocksKeepsClose()
    ensures RemoveThinkBlocks(THINK_CLOSE) == THINK_CLOSE
  {
    var close := THINK_CLOSE;
    assert close[1] == '/' && '<' !in close[1..];
    LtSlashKept(close);
  }

  /** A text opening "</" with no other '<' holds no block, so the scan keeps all of it. */
  lemma LtSlashKept(s: string)
    requires |s| > 1 && s[1] == '/' && '<' !in s[1..]
    ensures RemoveThinkBlocks(s) == s
  {
    calc {
      RemoveThinkBlocks(s);
      { SlashNotOpen(s); RemoveThinkBlocksNoOpenHead(s); }
      [s[0]] + RemoveThinkBlocks(s[1..]);
      { PlainKept(s[1..]); }
      [s[0]] + s[1..];
    }
  }

  /** A text whose second character is '/' does not start with `<think>`. */
  lemma SlashNotOpen(s: string)
    requires |s| > 1 && s[1] == '/'
    ensures !StartsWith(s, THINK_OPEN)
  {
    if |THINK_OPEN| <= |s| {
      assert s[..|THINK_OPEN|][1] == s[1];
    }
  }

  /** Text with no '<' holds no block. */
  lemma PlainKept(a: string)
    requires '<' !in a
    ensures RemoveThinkBlocks(a) == a
  {
    RemoveThinkBlocksPlainPrefix(a, []);
    assert a + [] == a;
  }

  /**
   * `re.sub` on "<thi<think>x</think>nk>y</think>" gives "<think>y</think>":
   * the `<think>` formed by the deletion is not matched again.
   */
  lemma RemoveThinkBlocksNoRescanExample()
    ensures RemoveThinkBlocks("<thi" + THINK_OPEN + "x" + THINK_CLOSE + "nk>y" + THINK_CLOSE)
         == THINK_OPEN + "y" + THINK_CLOSE
  {
    IndexOfAbsentHead("x", THINK_CLOSE);
    var rest := "y" + THINK_CLOSE;
    assert "<thi" + THINK_OPEN + "x" + THINK_CLOSE + "nk>y" + THINK_CLOSE
        == "<thi" + THINK_OPEN + "x" + THINK_CLOSE + "nk>" + rest;
    RemoveThinkBlocksNoRescan("x", rest);
    RemoveThinkBlocksPlainPrefix("y", THINK_CLOSE);
    RemoveThinkBlocksKeepsClose();
  }

  /** The cleaned text is the answer with characters deleted, so never longer. */
  lemma CleanJsonStringIsSubseq(text: string)
    ensures IsSubseq(CleanJsonString(text), text)
    ensures |CleanJsonString(text)| <= |text|
  {
    var t1 := Strip(text);
    StripIsSubseq(text);
    var t2 := DropOpeningFence(t1);
    if StartsWith(t1, JSON_FENCE) {
      StripIsSubseq(t1[|JSON_FENCE|..]);
      SuffixIsSubseq(t1, |JSON_FENCE|);
      SubseqTrans(t2, t1[|JSON_FENCE|..], t1);
    } else {
      SubseqRefl(t1);
    }
    var t3 := DropClosingFence(t2);
    if EndsWith(t2, FENCE) {
      StripIsSubseq(t2[..|t2| - |FENCE|]);
      PrefixIsSubseq(t2, |t2| - |FENCE|);
      SubseqTrans(t3, t2[..|t2| - |FENCE|], t2);
    } else {
      SubseqRefl(t2);
    }
    var t4 := RemoveThinkBlocks(t3);
    RemoveThinkBlocksIsSubseq(t3);
    StripIsSubseq(t4);
    SubseqTrans(t3, t2, t1);
    SubseqTrans(t3, t1, text);
    SubseqTrans(t4, t3, text);
    SubseqTrans(Strip(t4), t4, text);
    SubseqLength(CleanJsonString(text), text);
  }

  /** Text with no padding, no fences and no `<think>` is returned unchanged. */
  lemma CleanJsonStringPlain(text: string)
    requires NoSurroundingSpace(text)
    requires !StartsWith(text, JSON_FENCE) && !EndsWith(text, FENCE)
    requires IndexOf(text, THINK_OPEN).None?
    ensures CleanJsonString(text) == text
  {
    StripUnchanged(text);
    RemoveThinkBlocksUnchanged(text);
  }

  lemma DropOpeningFencePadded(w: string, body: string)
    requires AllSpace(w) && NoSurroundingSpace(body)
    ensures DropOpeningFence(JSON_FENCE + (w + body)) == body
  {
    var t := JSON_FENCE + (w + body);
    assert t[..|JSON_FENCE|] == JSON_FENCE;
    assert t[|JSON_FENCE|..] == w + body + [];
    StripPadded(w, body, []);
  }

  lemma DropClosingFencePadded(body: string, w: string)
    requires AllSpace(w) && NoSurroundingSpace(body)
    ensures DropClosingFence((body + w) + FENCE) == body
  {
    var t := (body + w) + FENCE;
    assert t[|t| - |FENCE|..] == FENCE;
    assert t[..|t| - |FENCE|] == [] + body + w;
    StripPadded([], body, w);
  }

  /**
   * A payload inside a "```json" ... "```" fence, with whitespace anywhere
   * around the fences, comes out alone.
   */
  lemma CleanJsonStringFenced(w1: string, w2: string, payload: string, w3: string, w4: string)
    requires AllSpace(w1) && AllSpace(w2) && AllSpace(w3) && AllSpace(w4)
    requires payload != [] && NoSurroundingSpace(payload)
    requires IndexOf(payload, THINK_OPEN).None?
    ensures CleanJsonString(w1 + JSON_FENCE + w2 + payload + w3 + FENCE + w4) == payload
  {
    var body := (payload + w3) + FENCE;
    var inner := JSON_FENCE + (w2 + body);
    assert w1 + JSON_FENCE + w2 + payload + w3 + FENCE + w4 == w1 + inner + w4;
    assert inner[0] == '`' && inner[|inner| - 1] == '`';
    StripPadded(w1, inner, w4);
    assert body[0] == payload[0] && body[|body| - 1] == '`';
    DropOpeningFencePadded(w2, body);
    DropClosingFencePadded(payload, w3);
    RemoveThinkBlocksUnchanged(payload);
    StripUnchanged(payload);
  }

  /** A fenced answer surrounded by line breaks cleans to its payload. */
  lemma CleanJsonStringFencedExample()
    ensures CleanJsonString("\n" + JSON_FENCE + "\n" + "{\"result\":{\"a\":1}}" + "\n" + FENCE + "\n")
         == "{\"result\":{\"a\":1}}"
  {
    var payload := "{\"result\":{\"a\":1}}";
    ExamplePayloadTrimmed();
    ExamplePayloadHasNoThinkBlock();
    CleanJsonStringFenced("\n", "\n", payload, "\n", "\n");
  }

  lemma ExamplePayloadTrimmed()
    ensures NoSurroundingSpace("{\"result\":{\"a\":1}}")
  {
  }

  lemma ExamplePayloadHasNoThinkBlock()
    ensures IndexOf("{\"result\":{\"a\":1}}", THINK_OPEN).None?
  {
    IndexOfAbsentHead("{\"result\":{\"a\":1}}", THINK_OPEN);
  }

  /**
   * An answer that opens with a think block keeps what follows the block,
   * even a "```json" fence there: the fence checks ran before the block
   * was deleted.
   */
  lemma CleanJsonStringAfterThinkBlock(body: string, rest: string)
    requires IndexOf(body, THINK_CLOSE).None?
    requires rest != [] && NoSurroundingSpace(rest) && !EndsWith(rest, FENCE)
    requires IndexOf(rest, THINK_OPEN).None?
    ensures CleanJsonString(THINK_OPEN + body + THINK_CLOSE + rest) == rest
  {
    var text := THINK_OPEN + body + THINK_CLOSE + rest;
    NoFenceAroundThinkBlock(body, rest);
    RemoveLeadingThinkBlock(body, rest);
    TrimStartPadded([], rest);
    assert [] + rest == rest;
    RemoveThinkBlocksUnchanged(rest);
    StripUnchanged(rest);
  }

  /** Text that opens with a think block and ends in `rest` is left alone by the fence steps. */
  lemma NoFenceAroundThinkBlock(body: string, rest: string)
    requires rest != [] && NoSurroundingSpace(rest) && !EndsWith(rest, FENCE)
    ensures var text := THINK_OPEN + body + THINK_CLOSE + rest;
      Strip(text) == text && DropOpeningFence(text) == text && DropClosingFence(text) == text
  {
    var text := THINK_OPEN + body + THINK_CLOSE + rest;
    assert text[0] == '<' && text[|text| - 1] == rest[|rest| - 1];
    StripUnchanged(text);
    assert !StartsWith(text, JSON_FENCE) by { assert text[0] != JSON_FENCE[0]; }
    assert !EndsWith(text, FENCE) by {
      if |rest| < |FENCE| {
        var k := |text| - |rest| - 1;
        assert text[k] == '>';
        assert text[|text| - |FENCE|..][|FENCE| - |rest| - 1] == text[k];
      } else {
        assert text[|text| - |FENCE|..] == rest[|rest| - |FENCE|..];
      }
    }
  }

  /** The think example: "<think>ignored</think>{"result":{}}" cleans to "{"result":{}}". */
  lemma CleanJsonStringThinkExample()
    ensures CleanJsonString(THINK_OPEN + "ignored" + THINK_CLOSE + "{\"result\":{}}") == "{\"result\":{}}"
  {
    ThinkExampleFacts();
    CleanJsonStringAfterThinkBlock("ignored", "{\"result\":{}}");
  }

  lemma ThinkExampleFacts()
    ensures var rest := "{\"result\":{}}";
      && IndexOf("ignored", THINK_CLOSE).None?
      && rest != [] && NoSurroundingSpace(rest) && !EndsWith(rest, FENCE)
      && IndexOf(rest, THINK_OPEN).None?
  {
    ThinkExampleBody();
    ThinkExampleRest();
  }

  lemma ThinkExampleBody()
    ensures IndexOf("ignored", THINK_CLOSE).None?
  {
    IndexOfAbsentHead("ignored", THINK_CLOSE);
  }

  lemma ThinkExampleRest()
    ensures var rest := "{\"result\":{}}";
      && rest != [] && NoSurroundingSpace(rest) && !EndsWith(rest, FENCE)
      && IndexOf(rest, THINK_OPEN).None?
  {
    var rest := "{\"result\":{}}";
    assert rest[0] == '{' && rest[|rest| - 1] == '}';
    PlainAnswerFacts(rest);
  }

  /** An answer ending in something other than a backtick, with no '<', needs no fence or think-block cleaning. */
  lemma PlainAnswerFacts(rest: string)
    requires rest != [] && !IsSpace(rest[0]) && !IsSpace(rest[|rest| - 1])
    requires rest[|rest| - 1] != '`' && '<' !in rest
    ensures NoSurroundingSpace(rest) && !EndsWith(rest, FENCE) && IndexOf(rest, THINK_OPEN).None?
  {
    if |FENCE| <= |rest| {
      assert rest[|rest| - |FENCE|..][|FENCE| - 1] == rest[|rest| - 1];
    }
    IndexOfAbsentHead(rest, THINK_OPEN);
  }

  /** "<think>a</think>```json{}" cleans to "```json{}": the uncovered fence stays. */
  lemma CleanJsonStringKeepsUncoveredFence()
    ensures CleanJsonString(THINK_OPEN + "a" + THINK_CLOSE + JSON_FENCE + "{}") == JSON_FENCE + "{}"
  {
    var rest := JSON_FENCE + "{}";
    assert THINK_OPEN + "a" + THINK_CLOSE + JSON_FENCE + "{}" == THINK_OPEN + "a" + THINK_CLOSE + rest;
    IndexOfAbsentHead("a", THINK_CLOSE);
    IndexOfAbsentHead(rest, THINK_OPEN);
    CleanJsonStringAfterThinkBlock("a", rest);
  }

  /**
   * A closing fence uncovered by deleting a trailing think block stays: the
   * fence checks ran while the block still ended the answer.
   */
  lemma CleanJsonStringKeepsUncoveredClosingFence(a: string, body: string)
    requires a != [] && NoSurroundingSpace(a) && a[0] != '`' && '<' !in a
    requires IndexOf(body, THINK_CLOSE).None?
    ensures CleanJsonString(a + FENCE + THINK_OPEN + body + THINK_CLOSE) == a + FENCE
  {
    var text := a + FENCE + THINK_OPEN + body + THINK_CLOSE;
    var kept := a + FENCE;
    calc {
      CleanJsonString(text);
      Strip(RemoveThinkBlocks(DropClosingFence(DropOpeningFence(Strip(text)))));
      { UncoveredClosingFenceSteps(a, body); }
      Strip(RemoveThinkBlocks(text));
      { assert text == kept + THINK_OPEN + body + THINK_CLOSE + [];
        assert '<' !in kept;
        RemoveThinkBlocksAfterPlain(kept, body, []); }
      Strip(kept + RemoveThinkBlocks(TrimStart([])));
      { assert kept + RemoveThinkBlocks(TrimStart([])) == kept + [] == kept; }
      Strip(kept);
      { assert kept[0] == a[0] && kept[|kept| - 1] == '`';
        StripUnchanged(kept); }
      kept;
    }
  }

  /** The strip and fence steps leave an answer ending in a think block alone. */
  lemma UncoveredClosingFenceSteps(a: string, body: string)
    requires a != [] && NoSurroundingSpace(a) && a[0] != '`'
    ensures var text := a + FENCE + THINK_OPEN + body + THINK_CLOSE;
      DropClosingFence(DropOpeningFence(Strip(text))) == text
  {
    var text := a + FENCE + THINK_OPEN + body + THINK_CLOSE;
    assert text[0] == a[0] && text[|text| - 1] == '>';
    StripUnchanged(text);
    assert !StartsWith(text, JSON_FENCE) by {
      assert text[..|JSON_FENCE|][0] == text[0];
    }
    assert !EndsWith(text, FENCE) by {
      assert text[|text| - |FENCE|..][|FENCE| - 1] == text[|text| - 1];
    }
  }

  /** "{}```<think>x</think>" cleans to "{}```". */
  lemma CleanJsonStringUncoveredClosingFenceExample()
    ensures CleanJsonString("{}" + FENCE + THINK_OPEN + "x" + THINK_CLOSE) == "{}" + FENCE
  {
    IndexOfAbsentHead("x", THINK_CLOSE);
    CleanJsonStringKeepsUncoveredClosingFence("{}", "x");
  }

  /** One trailing fence after text that needs no other cleaning is dropped. */
  lemma CleanJsonStringClosingFence(x: string)
    requires x != [] && NoSurroundingSpace(x) && x[0] != '`'
    requires IndexOf(x, THINK_OPEN).None?
    ensures CleanJsonString(x + FENCE) == x
  {
    var t := x + FENCE;
    assert t[0] == x[0] && t[|t| - 1] == '`';
    StripUnchanged(t);
    assert DropOpeningFence(t) == t by {
      assert !StartsWith(t, JSON_FENCE) by { assert t[0] != JSON_FENCE[0]; }
    }
    DropClosingFencePadded(x, []);
    assert x + [] == x;
    RemoveThinkBlocksUnchanged(x);
    StripUnchanged(x);
  }

  /** Of two trailing fences only the last is dropped. */
  lemma CleanJsonStringOneClosingFence(payload: string)
    requires payload != [] && NoSurroundingSpace(payload) && payload[0] != '`'
    requires '<' !in payload
    ensures CleanJsonString(payload + FENCE) == payload
    ensures CleanJsonString(payload + FENCE + FENCE) == payload + FENCE
  {
    IndexOfAbsentHead(payload, THINK_OPEN);
    CleanJsonStringClosingFence(payload);
    FencedPayloadFacts(payload);
    CleanJsonStringClosingFence(payload + FENCE);
  }

  /** A payload followed by one fence still meets the conditions for dropping one more. */
  lemma FencedPayloadFacts(payload: string)
    requires payload != [] && NoSurroundingSpace(payload) && payload[0] != '`'
    requires '<' !in payload
    ensures var once := payload + FENCE;
      once != [] && NoSurroundingSpace(once) && once[0] != '`' && IndexOf(once, THINK_OPEN).None?
  {
    var once := payload + FENCE;
    assert once[0] == payload[0] && once[|once| - 1] == '`';
    assert '<' !in once;
    IndexOfAbsentHead(once, THINK_OPEN);
  }

  /**
   * Cleaning is not idempotent: "{}``````" cleans to "{}```", which cleans
   * again to "{}".
   */
  lemma CleanJsonStringNotIdempotent()
    ensures CleanJsonString("{}" + FENCE + FENCE) == "{}" + FENCE
    ensures CleanJsonString(CleanJsonString("{}" + FENCE + FENCE)) == "{}"
    ensures CleanJsonString(CleanJsonString("{}" + FENCE + FENCE)) != CleanJsonString("{}" + FENCE + FENCE)
  {
    CleanJsonStringOneClosingFence("{}");
  }

  // ---------------------------------------------------------------------
  // Decoding the cleaned answer

  /** What `json.loads` produces. Numbers keep their literal text. */
  datatype Json =
    | JNull
    | JBool(b: bool)
    | JNumber(literal: string)
    | JString(str: string)
    | JArray(items: seq<Json>)
    | JObject(fields: map<string, Json>)

  /**
   * What `invoke` raises: a `ControlledException` carrying an error
   * constant, or the `TypeError` of subscripting a JSON value that is not
   * an object with `["result"]`, which `invoke` does not catch.
   */
  datatype Raised = Controlled(error: ErrorMessage) | TypeError

  /**
   * `json.loads(clean)["result"]` with its two handlers, given what
   * `json.loads` did (`None` for a `JSONDecodeError`).
   */
  function DecodeResult(parsed: Option<Json>): (r: Result<Json, Raised>)
    ensures r == Failure(Controlled(JSON_PARSING_ERROR)) <==> parsed.None?
    ensures r == Failure(Controlled(INVALID_DATA_TYPE))
        <==> parsed.Some? && parsed.value.JObject? && "result" !in parsed.value.fields
    ensures r == Failure(TypeError) <==> parsed.Some? && !parsed.value.JObject?
    ensures r.Success?
        <==> parsed.Some? && parsed.value.JObject? && "result" in parsed.value.fields
    ensures r.Success? ==> r.value == parsed.value.fields["result"]
    ensures r.Failure? && r.error.Controlled? ==> r.error.error.code in {-401, -402}
  {
    match parsed
    case None => Failure(Controlled(JSON_PARSING_ERROR))
    case Some(JObject(fields)) =>
      if "result" in fields then Success(fields["result"])
      else Failure(Controlled(INVALID_DATA_TYPE))
    case Some(_) => Failure(TypeError)
  }

  /** The reply shape the shared command segment asks the backend for. */
  function Envelope(value: Json, others: map<string, Json>): Json {
    JObject(others["result" := value])
  }

  /** Decoding an envelope gives back exactly the value put under "result". */
  lemma DecodeEnvelope(value: Json, others: map<string, Json>)
    ensures DecodeResult(Some(Envelope(value, others))) == Success(value)
  {
  }

  /** Every successful decode is of an envelope around the returned value. */
  lemma DecodeSuccessIsEnvelope(parsed: Option<Json>)
    requires DecodeResult(parsed).Success?
    ensures parsed == Some(Envelope(DecodeResult(parsed).value, parsed.value.fields))
  {
    var fields := parsed.value.fields;
    assert fields["result" := fields["result"]] == fields;
  }

  // ---------------------------------------------------------------------
  // Prompt composition and the per-class instances

  /** One role-tagged prompt message, as given to `ChatPromptTemplate.from_messages`. */
  datatype Segment = Segment(role: string, text: string)

  /** `_COMMON_COMMAND_TEMPLATE`, after `dedent`. */
  const COMMON_COMMAND_TEMPLATE: Segment := Segment("system",
    "\n/json\n/no_think\n\nYou have access to functions. If you decide to invoke any of the function(s),\n"
    + "you MUST put it in the format of\n{{\"result\": dictionary of argument name and its value }}\n\n"
    + "You SHOULD NOT include any other text in the response if you call a function\n")

  /** A class's prompt: the shared command segment, then the class's own, in order. */
  function ComposeTemplate(added: seq<Segment>): (t: seq<Segment>)
    ensures |t| == 1 + |added|
    ensures t[0] == COMMON_COMMAND_TEMPLATE
    ensures forall i :: 0 <= i < |added| ==> t[i + 1] == added[i]
  {
    [COMMON_COMMAND_TEMPLATE] + added
  }

  /** A specialised model class, by its qualified name. */
  type ClassId = string

  /** An instance of a specialised model class: its class and its composed prompt. */
  class LlmInstance {
    const cls: ClassId
    const template: seq<Segment>

    constructor (cls: ClassId, added: seq<Segment>)
      ensures this.cls == cls && template == ComposeTemplate(added)
    {
      this.cls := cls;
      template := ComposeTemplate(added);
    }

    /**
     * `invoke`: the backend's answer to the prompt and the parameters,
     * cleaned, parsed and decoded. `generate` stands for the chat model
     * behind the template and `parse` for `json.loads`.
     */
    function Invoke(parameter: map<string, string>,
                    generate: (seq<Segment>, map<string, string>) -> string,
                    parse: string -> Option<Json>): (r: Result<Json, Raised>)
      ensures var parsed := parse(CleanJsonString(generate(template, parameter)));
        && (r.Success? <==> parsed.Some? && parsed.value.JObject? && "result" in parsed.value.fields)
        && (r.Success? ==> r.value == parsed.value.fields["result"])
        && (r == Failure(Controlled(JSON_PARSING_ERROR)) <==> parsed.None?)
        && (r == Failure(Controlled(INVALID_DATA_TYPE)) <==>
              parsed.Some? && parsed.value.JObject? && "result" !in parsed.value.fields)
        && (r == Failure(TypeError) <==> parsed.Some? && !parsed.value.JObject?)
    {
      DecodeResult(parse(CleanJsonString(generate(template, parameter))))
    }
  }

  /**
   * The class-level `_instances` dictionary that `CommonLLM.__new__` fills:
   * one instance per class, shared by every later construction of it.
   */
  class Registry {
    var instances: map<ClassId, LlmInstance>

    ghost predicate Valid()
      reads this
    {
      forall c :: c in instances ==>
        instances[c].cls == c
        && |instances[c].template| >= 1
        && instances[c].template[0] == COMMON_COMMAND_TEMPLATE
    }

    constructor ()
      ensures Valid() && instances == map[]
    {
      instances := map[];
    }

    /**
     * `CommonLLM.__new__(cls)`. `added` is what the class's
     * `_add_template()` hook returns; it is consulted only when the class
     * has no instance yet. The lock around the lookup is not modelled.
     */
    method New(cls: ClassId, added: seq<Segment>) returns (inst: LlmInstance)
      requires Valid()
      modifies this
      ensures Valid()
      ensures inst.cls == cls && cls in instances && instances[cls] == inst
      ensures cls in old(instances) ==> inst == old(instances[cls]) && instances == old(instances)
      ensures cls !in old(instances) ==>
        && fresh(inst)
        && inst.template == ComposeTemplate(added)
        && instances == old(instances)[cls := inst]
    {
      if cls !in instances {
        var created := new LlmInstance(cls, added);
        instances := instances[cls := created];
      }
      inst := instances[cls];
    }
  }

  /** Two constructions of one class give the same instance and leave other classes alone. */
  method ConstructTwice(r: Registry, cls: ClassId, first: seq<Segment>, second: seq<Segment>)
      returns (a: LlmInstance, b: LlmInstance)
    requires r.Valid()
    modifies r
    ensures r.Valid() && a == b
    ensures forall c :: c in old(r.instances) && c != cls ==> c in r.instances && r.instances[c] == old(r.instances[c])
    ensures cls !in old(r.instances) ==> a.template == ComposeTemplate(first)
  {
    a := r.New(cls, first);
    b := r.New(cls, second);
  }
}
