/**
 * The chat handler: a store of per-session conversation memories keyed by
 * "conversationId@userId", the streamed answer with its per-chunk marker
 * filter, and the MBTI description table that fills the persona prompt.
 *
 * A conversation memory is modelled as its message sequence; summarisation
 * inside `save_context` is a function parameter, and so is the streaming
 * chat model behind the prompt.
 */
module MainLlm {
  import opened Wrappers
  import opened PyStr

  // ---------------------------------------------------------------------
  // Messages and session keys

  datatype Message = AiMessage(content: string) | HumanMessage(content: string)

  /** What a conversation memory holds. */
  type History = seq<Message>

  /** The assistant's opening line of every new session. */
  const GREETING: string := "오늘은 어떤 일이 있었어?"

  /** The exception a store operation lets escape. */
  datatype StoreError =
    | KeyError(key: string)     // subscripting the store with an absent key
    | ValueError(key: string)   // unpacking a key that does not split into two parts on '@'

  /** `_, user_id = key.split("@")` succeeds exactly on these keys. */
  predicate WellFormedKey(key: string) {
    |Split(key, '@')| == 2
  }

  /** The part after the '@' of a well-formed key. */
  function UserOf(key: string): (user: string)
    requires WellFormedKey(key)
    ensures '@' !in user
    ensures key == Split(key, '@')[0] + "@" + user
  {
    JoinSplit(key, '@');
    var parts := Split(key, '@');
    assert Join(parts, '@') == parts[0] + "@" + Join(parts[1..], '@');
    assert Join(parts[1..], '@') == parts[1];
    parts[1]
  }

  /** A key of exactly one '@' is what the unpacking accepts. */
  lemma WellFormedKeyIsOneAt(key: string)
    ensures WellFormedKey(key) <==> multiset(key)['@'] == 1
  {
    SplitCount(key, '@');
  }

  /** The key a conversation of a user is stored under. */
  function SessionKey(conversation: string, user: string): string {
    conversation + "@" + user
  }

  /** A key built from '@'-free parts is well formed and names its user. */
  lemma SessionKeyUser(conversation: string, user: string)
    requires '@' !in conversation && '@' !in user
    ensures WellFormedKey(SessionKey(conversation, user))
    ensures UserOf(SessionKey(conversation, user)) == user
  {
    assert Join([conversation, user], '@') == SessionKey(conversation, user);
    SplitJoin([conversation, user], '@');
  }

  /** Whether the reset for `uid` deletes `key` (when it gets that far). */
  predicate OwnedBy(key: string, uid: string) {
    WellFormedKey(key) && UserOf(key) == uid
  }

  // ---------------------------------------------------------------------
  // Specification of the key sequence

  predicate Distinct(ks: seq<string>) {
    forall i, j :: 0 <= i < j < |ks| ==> ks[i] != ks[j]
  }

  /** `ks` without `k`, the rest in their order. */
  function Without(ks: seq<string>, k: string): (r: seq<string>)
    ensures |r| <= |ks| && k !in r
  {
    if |ks| == 0 then []
    else (if ks[0] == k then [] else [ks[0]]) + Without(ks[1..], k)
  }

  /** Removal takes away `k` and keeps every other key. */
  lemma {:induction false} WithoutMembers(ks: seq<string>, k: string)
    ensures forall x :: x in Without(ks, k) <==> x in ks && x != k
  {
    if |ks| > 0 {
      WithoutMembers(ks[1..], k);
      assert ks == [ks[0]] + ks[1..];
    }
  }

  /** Removing an absent key changes nothing. */
  lemma {:induction false} WithoutAbsent(ks: seq<string>, k: string)
    requires k !in ks
    ensures Without(ks, k) == ks
  {
    if |ks| > 0 {
      WithoutAbsent(ks[1..], k);
      assert ks == [ks[0]] + ks[1..];
    }
  }

  /** Removal distributes over concatenation. */
  lemma {:induction false} WithoutAppend(a: seq<string>, b: seq<string>, k: string)
    ensures Without(a + b, k) == Without(a, k) + Without(b, k)
  {
    if |a| == 0 {
      assert a + b == b;
    } else {
      var head := if a[0] == k then [] else [a[0]];
      calc {
        Without(a + b, k);
        { assert (a + b)[0] == a[0] && (a + b)[1..] == a[1..] + b; }
        head + Without(a[1..] + b, k);
        { WithoutAppend(a[1..], b, k); }
        head + (Without(a[1..], k) + Without(b, k));
        { SeqAssoc(head, Without(a[1..], k), Without(b, k)); }
        Without(a, k) + Without(b, k);
      }
    }
  }

  lemma SeqAssoc<T>(x: seq<T>, y: seq<T>, z: seq<T>)
    ensures x + (y + z) == (x + y) + z
  {
  }

  /** Removal keeps the remaining keys distinct. */
  lemma {:induction false} WithoutDistinct(ks: seq<string>, k: string)
    requires Distinct(ks)
    ensures Distinct(Without(ks, k))
  {
    if |ks| > 0 {
      WithoutDistinct(ks[1..], k);
      forall m | 0 <= m < |ks| - 1
        ensures ks[1..][m] != ks[0]
      {
        assert ks[1..][m] == ks[m + 1];
      }
      var r := Without(ks[1..], k);
      WithoutMembers(ks[1..], k);
      assert ks[0] !in r;
      if ks[0] != k {
        var t := [ks[0]] + r;
        forall i, j | 0 <= i < j < |t|
          ensures t[i] != t[j]
        {
          assert t[j] == r[j - 1];
          if i > 0 {
            assert t[i] == r[i - 1];
          }
        }
      }
    }
  }

  /** The keys of `ks` that a reset for `uid` keeps, in order. */
  function Kept(ks: seq<string>, uid: string): seq<string> {
    if |ks| == 0 then []
    else
      var last := ks[|ks| - 1];
      Kept(ks[..|ks| - 1], uid) + (if OwnedBy(last, uid) then [] else [last])
  }

  /** The keys of `ks` that a reset for `uid` deletes. */
  function Owned(ks: seq<string>, uid: string): set<string> {
    if |ks| == 0 then {}
    else
      var last := ks[|ks| - 1];
      Owned(ks[..|ks| - 1], uid) + (if OwnedBy(last, uid) then {last} else {})
  }

  /** The deleted keys are exactly the keys owned by `uid`. */
  lemma {:induction false} OwnedMembers(ks: seq<string>, uid: string)
    ensures forall x :: x in Owned(ks, uid) <==> x in ks && OwnedBy(x, uid)
  {
    if |ks| > 0 {
      OwnedMembers(ks[..|ks| - 1], uid);
      assert ks == ks[..|ks| - 1] + [ks[|ks| - 1]];
    }
  }

  /** A reset keeps exactly the keys not owned by `uid`. */
  lemma {:induction false} KeptMembers(ks: seq<string>, uid: string)
    ensures forall x :: x in Kept(ks, uid) <==> x in ks && !OwnedBy(x, uid)
  {
    if |ks| > 0 {
      KeptMembers(ks[..|ks| - 1], uid);
      assert ks == ks[..|ks| - 1] + [ks[|ks| - 1]];
    }
  }

  /** The position of the first key the unpacking rejects, or |ks| if there is none. */
  function FirstMalformed(ks: seq<string>): (n: nat)
    ensures n <= |ks|
    ensures forall j :: 0 <= j < n ==> WellFormedKey(ks[j])
    ensures n < |ks| ==> !WellFormedKey(ks[n])
  {
    if |ks| == 0 || !WellFormedKey(ks[0]) then 0 else 1 + FirstMalformed(ks[1..])
  }

  /** The key sequence a reset for `uid` leaves: keys visited before the failure, filtered, then the rest. */
  function ResetKeys(ks: seq<string>, uid: string): seq<string> {
    Kept(ks[..FirstMalformed(ks)], uid) + ks[FirstMalformed(ks)..]
  }

  /** What a reset for `uid` leaves when every key is well formed: exactly the keys of other users. */
  lemma ResetKeysWellFormed(ks: seq<string>, uid: string)
    requires forall j :: 0 <= j < |ks| ==> WellFormedKey(ks[j])
    ensures forall x :: x in ResetKeys(ks, uid) <==> x in ks && UserOf(x) != uid
  {
    FirstMalformedNone(ks);
    assert ks[..|ks|] == ks && ks[|ks|..] == [];
    assert ResetKeys(ks, uid) == Kept(ks, uid);
    KeptMembers(ks, uid);
  }

  lemma {:induction false} FirstMalformedNone(ks: seq<string>)
    requires forall j :: 0 <= j < |ks| ==> WellFormedKey(ks[j])
    ensures FirstMalformed(ks) == |ks|
  {
    if |ks| > 0 {
      assert WellFormedKey(ks[0]);
      FirstMalformedNone(ks[1..]);
    }
  }

  /** A malformed key stops the reset: it and every key after it survive. */
  lemma ResetKeysKeepsTail(ks: seq<string>, uid: string)
    requires FirstMalformed(ks) < |ks|
    ensures forall j :: FirstMalformed(ks) <= j < |ks| ==> ks[j] in ResetKeys(ks, uid)
  {
    var n := FirstMalformed(ks);
    InSuffix(Kept(ks[..n], uid), ks, n);
  }

  /** Every element from position `n` on is in anything that ends with that suffix. */
  lemma InSuffix<T>(a: seq<T>, s: seq<T>, n: nat)
    requires n <= |s|
    ensures forall j :: n <= j < |s| ==> s[j] in a + s[n..]
  {
    forall j | n <= j < |s|
      ensures s[j] in a + s[n..]
    {
      assert (a + s[n..])[|a| + j - n] == s[j];
    }
  }

  /** A well-formed key is deleted iff it was visited and belongs to `uid`. */
  lemma ResetKeysDeletes(ks: seq<string>, uid: string, j: nat)
    requires Distinct(ks) && j < FirstMalformed(ks)
    ensures ks[j] !in ResetKeys(ks, uid) <==> UserOf(ks[j]) == uid
  {
    var n := FirstMalformed(ks);
    var key := ks[j];
    assert WellFormedKey(key);
    assert ks[..n][j] == key;
    KeptMembers(ks[..n], uid);
    DistinctNotInSuffix(ks, j, n);
    assert ResetKeys(ks, uid) == Kept(ks[..n], uid) + ks[n..];
  }

  /** In a sequence of distinct keys, a key does not recur after its own position. */
  lemma DistinctNotInSuffix(ks: seq<string>, j: nat, n: nat)
    requires Distinct(ks) && j < n <= |ks|
    ensures ks[j] !in ks[n..]
  {
    forall m | 0 <= m < |ks| - n
      ensures ks[n..][m] != ks[j]
    {
      assert ks[n..][m] == ks[n + m];
    }
  }

  // ---------------------------------------------------------------------
  // The stream filter

  /** The `replace` chain applied to each chunk's content. */
  function FilterChunk(chunk: string): (r: string)
    ensures '<' !in r && '>' !in r && '/' !in r
    ensures IsSubseq(r, chunk)
  {
    var s1 := Replace(chunk, "<", "");
    var s2 := Replace(s1, ">", "");
    var s3 := Replace(s2, "/", "");
    var s4 := Replace(s3, "think", "");
    var s5 := Replace(s4, "think", "");
    FilterChunkSteps(chunk, s1, s2, s3, s4, s5);
    s5
  }

  lemma FilterChunkSteps(chunk: string, s1: string, s2: string, s3: string, s4: string, s5: string)
    requires s1 == Replace(chunk, "<", "") && s2 == Replace(s1, ">", "") && s3 == Replace(s2, "/", "")
    requires s4 == Replace(s3, "think", "") && s5 == Replace(s4, "think", "")
    ensures '<' !in s5 && '>' !in s5 && '/' !in s5
    ensures IsSubseq(s5, chunk)
  {
    RemoveCharGone(chunk, '<');
    RemoveKeepsAbsent(s1, ">", '<');
    RemoveCharGone(s1, '>');
    RemoveKeepsAbsent(s2, "/", '<');
    RemoveKeepsAbsent(s2, "/", '>');
    RemoveCharGone(s2, '/');
    ThinkRemovalKeepsAbsent(s3, s4, s5);
    RemoveIsSubseq(chunk, "<");
    RemoveIsSubseq(s1, ">");
    RemoveIsSubseq(s2, "/");
    RemoveIsSubseq(s3, "think");
    RemoveIsSubseq(s4, "think");
    SubseqTrans(s5, s4, s3);
    SubseqTrans(s5, s3, s2);
    SubseqTrans(s5, s2, s1);
    SubseqTrans(s5, s1, chunk);
  }

  lemma ThinkRemovalKeepsAbsent(s3: string, s4: string, s5: string)
    requires s4 == Replace(s3, "think", "") && s5 == Replace(s4, "think", "")
    requires '<' !in s3 && '>' !in s3 && '/' !in s3
    ensures '<' !in s5 && '>' !in s5 && '/' !in s5
  {
    RemoveKeepsAbsent(s3, "think", '<');
    RemoveKeepsAbsent(s3, "think", '>');
    RemoveKeepsAbsent(s3, "think", '/');
    RemoveKeepsAbsent(s4, "think", '<');
    RemoveKeepsAbsent(s4, "think", '>');
    RemoveKeepsAbsent(s4, "think", '/');
  }

  /** Deleting occurrences of a string introduces no character. */
  lemma RemoveKeepsAbsent(s: string, target: string, c: char)
    requires |target| > 0 && c !in s
    ensures c !in Replace(s, target, "")
  {
    RemoveIsSubseq(s, target);
    SubseqAbsent(Replace(s, target, ""), s, c);
  }

  /** The filtered chunks that are yielded: the non-empty ones, in backend order. */
  function FilterStream(chunks: seq<string>): (out: seq<string>)
    ensures |out| <= |chunks|
    ensures forall i :: 0 <= i < |out| ==> out[i] != []
  {
    if |chunks| == 0 then []
    else
      var c := FilterChunk(chunks[0]);
      (if c == [] then [] else [c]) + FilterStream(chunks[1..])
  }

  /** Filtering a stream piecewise is filtering it whole. */
  lemma {:induction false} FilterStreamAppend(a: seq<string>, b: seq<string>)
    ensures FilterStream(a + b) == FilterStream(a) + FilterStream(b)
  {
    if |a| == 0 {
      assert a + b == b;
    } else {
      var c := FilterChunk(a[0]);
      var head := if c == [] then [] else [c];
      calc {
        FilterStream(a + b);
        { assert (a + b)[0] == a[0] && (a + b)[1..] == a[1..] + b; }
        head + FilterStream(a[1..] + b);
        { FilterStreamAppend(a[1..], b); }
        head + (FilterStream(a[1..]) + FilterStream(b));
        { SeqAssoc(head, FilterStream(a[1..]), FilterStream(b)); }
        FilterStream(a) + FilterStream(b);
      }
    }
  }

  /** Every chunk the backend sends, filtered, whether or not it is yielded. */
  function FilteredChunks(chunks: seq<string>): (r: seq<string>)
    ensures |r| == |chunks|
    ensures forall i :: 0 <= i < |chunks| ==> r[i] == FilterChunk(chunks[i])
  {
    seq(|chunks|, i requires 0 <= i < |chunks| => FilterChunk(chunks[i]))
  }

  /** The yielded chunks are the filtered chunks with exactly the empty ones taken out. */
  lemma {:induction false} FilterStreamDropsEmpty(chunks: seq<string>)
    ensures FilterStream(chunks) == Without(FilteredChunks(chunks), "")
  {
    if |chunks| > 0 {
      var all := FilteredChunks(chunks);
      FilterStreamDropsEmpty(chunks[1..]);
      assert all[1..] == FilteredChunks(chunks[1..]);
    }
  }

  /** The yielded chunks are the filtered chunks with some left out, in their order. */
  lemma {:induction false} FilterStreamIsSubseq(chunks: seq<string>)
    ensures IsSubseq(FilterStream(chunks), FilteredChunks(chunks))
  {
    if |chunks| > 0 {
      var c := FilterChunk(chunks[0]);
      var all := FilteredChunks(chunks);
      FilterStreamIsSubseq(chunks[1..]);
      assert all == [c] + FilteredChunks(chunks[1..]);
      if c == [] {
        assert FilterStream(chunks) == FilterStream(chunks[1..]);
        SubseqPrepend(FilterStream(chunks[1..]), FilteredChunks(chunks[1..]), c);
      } else {
        SubseqPrependBoth(FilterStream(chunks[1..]), FilteredChunks(chunks[1..]), c);
      }
    }
  }

  /** Every chunk that is non-empty after filtering is yielded. */
  lemma {:induction false} FilterStreamComplete(chunks: seq<string>, i: nat)
    requires i < |chunks| && FilterChunk(chunks[i]) != []
    ensures FilterChunk(chunks[i]) in FilterStream(chunks)
  {
    if i > 0 {
      FilterStreamComplete(chunks[1..], i - 1);
      assert chunks[1..][i - 1] == chunks[i];
    }
  }

  /** The generator loop of `main_stream`, run over the whole stream. */
  method FilterChunks(chunks: seq<string>) returns (out: seq<string>)
    ensures out == FilterStream(chunks)
  {
    out := [];
    var i := 0;
    while i < |chunks|
      invariant 0 <= i <= |chunks|
      invariant out == FilterStream(chunks[..i])
    {
      var clean := FilterChunk(chunks[i]);
      FilterStreamSnoc(chunks[..i], chunks[i]);
      assert chunks[..i + 1] == chunks[..i] + [chunks[i]];
      if clean != [] {
        out := out + [clean];
      }
      i := i + 1;
    }
    assert chunks[..i] == chunks;
  }

  /** A chunk that arrives last is yielded, filtered, after the others, unless it filters to nothing. */
  lemma FilterStreamSnoc(a: seq<string>, c: string)
    ensures FilterStream(a + [c])
         == FilterStream(a) + (if FilterChunk(c) == [] then [] else [FilterChunk(c)])
  {
    FilterStreamAppend(a, [c]);
    FilterStreamCons(c, []);
    assert [c] + [] == [c];
  }

  /** Text the filter cannot touch: none of the deleted characters, and no 't' to start a "think". */
  predicate Plain(s: string) {
    '<' !in s && '>' !in s && '/' !in s && 't' !in s
  }

  /** Plain text passes the filter unchanged. */
  lemma FilterChunkPlain(a: string)
    requires Plain(a)
    ensures FilterChunk(a) == a
  {
    RemoveNone(a, "<");
    RemoveNone(a, ">");
    RemoveNone(a, "/");
    RemoveNone(a, "think");
  }

  /** The word "think" between plain text is deleted, as a marker would be. */
  lemma FilterChunkDropsWord(a: string, b: string)
    requires Plain(a) && Plain(b)
    ensures FilterChunk(a + "think" + b) == a + b
  {
    var s := a + "think" + b;
    RemoveNone(s, "<");
    RemoveNone(s, ">");
    RemoveNone(s, "/");
    RemoveOnce(a, "think", b);
    RemoveNone(a + b, "think");
  }

  /** An opening marker between plain text is deleted and the text around it joined. */
  lemma FilterChunkDropsOpenMarker(a: string, b: string)
    requires Plain(a) && Plain(b)
    ensures FilterChunk(a + "<think>" + b) == a + b
  {
    var s1 := a + "think>" + b;
    var s2 := a + "think" + b;
    assert a + "<think>" + b == a + "<" + ("think>" + b);
    RemoveOnce(a, "<", "think>" + b);
    assert Replace(a + "<think>" + b, "<", "") == s1;
    assert s1 == (a + "think") + ">" + b;
    RemoveOnce(a + "think", ">", b);
    assert Replace(s1, ">", "") == s2;
    RemoveNone(s2, "/");
    RemoveOnce(a, "think", b);
    RemoveNone(a + b, "think");
  }

  /** A closing marker between plain text is deleted and the text around it joined. */
  lemma FilterChunkDropsCloseMarker(a: string, b: string)
    requires Plain(a) && Plain(b)
    ensures FilterChunk(a + "</think>" + b) == a + b
  {
    CloseMarkerChars(a, b);
    RemoveOnce(a, "think", b);
    RemoveNone(a + b, "think");
  }

  /** The character deletions of the filter leave the bare word of a closing marker. */
  lemma CloseMarkerChars(a: string, b: string)
    requires Plain(a) && Plain(b)
    ensures Replace(Replace(Replace(a + "</think>" + b, "<", ""), ">", ""), "/", "") == a + "think" + b
  {
    CloseMarkerOpenBracket(a, b);
    CloseMarkerCloseBracket(a, b);
    CloseMarkerSlash(a, b);
  }

  lemma CloseMarkerOpenBracket(a: string, b: string)
    requires Plain(a) && Plain(b)
    ensures Replace(a + "</think>" + b, "<", "") == a + "/think>" + b
  {
    assert a + "</think>" + b == a + "<" + ("/think>" + b);
    RemoveOnce(a, "<", "/think>" + b);
  }

  lemma CloseMarkerCloseBracket(a: string, b: string)
    requires Plain(a) && Plain(b)
    ensures Replace(a + "/think>" + b, ">", "") == a + "/think" + b
  {
    assert a + "/think>" + b == (a + "/think") + ">" + b;
    RemoveOnce(a + "/think", ">", b);
  }

  lemma CloseMarkerSlash(a: string, b: string)
    requires Plain(a) && Plain(b)
    ensures Replace(a + "/think" + b, "/", "") == a + "think" + b
  {
    assert a + "/think" + b == a + "/" + ("think" + b);
    RemoveOnce(a, "/", "think" + b);
  }

  /** A chunk holding only a marker is filtered to nothing and not yielded. */
  lemma FilterChunkMarkerOnly()
    ensures FilterChunk("<think>") == ""
  {
    FilterChunkDropsOpenMarker("", "");
    assert "" + "<think>" + "" == "<think>";
  }

  /** Text around a closing marker is kept, joined. */
  lemma FilterChunkAroundMarker()
    ensures FilterChunk("x</think>y") == "xy"
  {
    FilterChunkDropsCloseMarker("x", "y");
    assert "x" + "</think>" + "y" == "x</think>y";
  }

  /** Ordinary text loses the word "think" too. */
  lemma FilterChunkOrdinaryText()
    ensures FilterChunk("we think so") == "we  so"
  {
    var a, b := "we ", " so";
    FilterChunkDropsWord(a, b);
    assert a + "think" + b == "we think so";
    assert a + b == "we  so";
  }

  /** A stream that opens with a marker chunk yields the rest, filtered. */
  lemma FilterStreamExample()
    ensures FilterStream(["<think>", "x</think>y", "z"]) == ["xy", "z"]
  {
    FilterChunkMarkerOnly();
    FilterStreamTailExample();
    FilterStreamCons("<think>", ["x</think>y", "z"]);
    assert ["<think>"] + ["x</think>y", "z"] == ["<think>", "x</think>y", "z"];
  }

  lemma FilterStreamTailExample()
    ensures FilterStream(["x</think>y", "z"]) == ["xy", "z"]
  {
    FilterChunkAroundMarker();
    FilterStreamLastExample();
    FilterStreamCons("x</think>y", ["z"]);
    assert ["x</think>y"] + ["z"] == ["x</think>y", "z"];
  }

  lemma FilterStreamLastExample()
    ensures FilterStream(["z"]) == ["z"]
  {
    FilterChunkPlain("z");
    FilterStreamCons("z", []);
    assert ["z"] + [] == ["z"];
  }

  /** The first chunk is yielded, filtered, before the rest, unless it filters to nothing. */
  lemma FilterStreamCons(c: string, rest: seq<string>)
    ensures FilterStream([c] + rest)
         == (if FilterChunk(c) == [] then [] else [FilterChunk(c)]) + FilterStream(rest)
  {
    assert ([c] + rest)[1..] == rest;
  }

  /** `persona.get(key, "")`: the persona's value under `key`, or "" when it has none. */
  function Get(persona: map<string, string>, key: string): (v: string)
    ensures key in persona ==> v == persona[key]
    ensures key !in persona ==> v == ""
  {
    if key in persona then persona[key] else ""
  }

  /** The variables `main_stream` binds into the prompt. */
  datatype StreamInput = StreamInput(
    name: string,
    mbti: string,
    mbtiDescription: string,
    interview: string,
    ragPrompt: string,
    userMessage: string)

  /** The prompt variables, with the persona's missing entries defaulted to "". */
  function BuildStreamInput(userMessage: string, persona: map<string, string>, ragPrompt: string): (v: StreamInput)
    ensures v.name == Get(persona, "name") && v.mbti == Get(persona, "mbti")
    ensures v.interview == Get(persona, "interview")
    ensures v.mbtiDescription == MbtiDescription(v.mbti)
    ensures v.userMessage == userMessage && v.ragPrompt == ragPrompt
    ensures "mbti" !in persona ==> v.mbti == "" && v.mbtiDescription == UNKNOWN_MBTI
  {
    MbtiDescriptionKnown("");
    StreamInput(Get(persona, "name"), Get(persona, "mbti"), MbtiDescription(Get(persona, "mbti")),
                Get(persona, "interview"), ragPrompt, userMessage)
  }

  // ---------------------------------------------------------------------
  // MBTI descriptions

  /** What `get_mbti_description` returns for a code it does not know. */
  const UNKNOWN_MBTI: string := "mbti 불명"

  /** The sixteen four-letter codes: one letter from each of the pairs I/E, S/N, T/F, J/P. */
  predicate IsMbtiCode(m: string) {
    |m| == 4 && m[0] in "IE" && m[1] in "SN" && m[2] in "TF" && m[3] in "JP"
  }

  /** `get_mbti_description`: the first code that equals `mbti` gives its text. */
  function MbtiDescription(mbti: string): string {
    match mbti
    case "ISTJ" => "실제 사실에 대하여 정확하고 체계적으로 기억하며, 일 처리에 있어서도 신중하고 책임감이 있다. 강한 집중력과 현실 감각을 지녔으며, 조직적이고 침착하다. 이들은 보수적인 경향이 있으며, 문제를 해결하는 데 과거의 경험을 잘 적용한다. 또한 반복되는 일상적인 일에 대한 인내력이 강하다."
    case "ISTP" => "낙관적이고 실용적이며, 즉흥적이면서도 합리적, 위기 대처 능력 뛰어나다, 우선순위를 잘 정한다. 사회적으로 지나치게 개인주의적이며 내성적이다. 이들은 위험한 행동을 잘하며, 감정에 무감각하다. 하는 일에 쉽게 지루해한다."
    case "ISFJ" => "타인을 향한 연민과 동정심이 있으면서도 가족이나 친구를 보호할 때는 단호하고 가차 없는 모습을 보인다. 이 외에도 한마디로 정의 내리기 힘든 다양한 성향을 내포하고 있다. 하지만 대체로 차분하고 따뜻하며, 내면에 강한 책임감과 인내심을 갖고 있다. 겉으로는 조용해 보여도 마음속에는 단단한 의지를 품고 살아간다."
    case "ISFP" => "말없이 다정하고 온화하며, 사람들에게 친절하다. 상대방을 잘 알게 될 때까진 내면을 보여주지 않는다. 의견 충돌을 피하고, 사람 간의 화합을 중시한다. 사람과 관계되는 일을 할 때 감정에 지나치게 세심하고 민감한 경향이 있다. 이들은 결정력과 추진력을 기를 필요가 있다."
    case "INTJ" => "거의 모든 일에 의문을 던진다. 또한 더 좋은 방법을 찾는 과정에서 거절당하거나 규칙을 깨는 일을 두려워하지 않는다. 단지 창의적인 데에서 그치지 않고 무언가를 성취해 내기를 원해, 새로운 아이디어에 통찰력과 뛰어난 논리력, 강한 의지를 더해 일을 추진한다."
    case "INTP" => "조용하고 과묵하며, 논리와 분석으로 문제를 해결하기 좋아한다. 먼저 대화를 시작하지는 않는 편이나 관심 있는 분야에 대해서는 말을 많이 한다. 이해가 빠르고 직관으로 통찰하는 능력이 있으며, 지적 호기심이 많다. 모든 MBTI 유형 중 창의적 지능과 논리 면에서 가장 뛰어나며, 반대로 비과학적이거나 논리적이지 못한 일들에 거부반응을 보일 확률이 높다."
    case "INFP" => "차분하고 창의적이며 낭만적인 성향으로 보이면서도, 내적 신념이 깊은 열정적인 중재자 유형이다. 인간 본연에 대한 애정으로 사람들의 장점을 발견하고, 이들의 가능성을 성취할 수 있도록 도우며, 세상을 더 나은 곳으로 만든다. 하지만 대그룹에 있을 경우 에너지가 쉽게 고갈되는 경향이 있으며, 친밀도가 높은 소수의 사람들과 어울리는 것을 선호한다."
    case "INFJ" => "인내심이 많고 통찰력과 직관력이 뛰어나며, 화합을 추구하는 유형이다. 창의력이 좋으며, 성숙한 경우에는 강한 직관력으로 타인에게 말없이도 큰 영향력을 끼친다.내적 독립심이 강하며, 확고한 신념과 열정으로 자신의 영감을 실현시키는 정신적 지주들이 많다. 나무보다 숲을 본다."
    case "ESTJ" => "현실적, 구체적, 사실적이다. 또한 어떠한 활동을 조직화하고 주도해 나가는 지도력과 추진력이 있다. 행정, 의료, 법조, 군대, 경찰, 재무 등 '조직관리' 분야에 뛰어난 재능을 지녔다. 타고난 지도자로서 프로젝트의 목표를 설정하고, 지시하고, 결정하고, 독려하여 기한 내에 철저히 이행하는 능력이 있다. 불확실한 미래의 가능성보다 흔들리지 않는 현재의 사실을 추구한다."
    case "ESTP" => "사실적이고 관대하며 개방적이고, 사람이나 사물에 대한 선입견이 별로 없다. 강한 현실 감각으로 타협책을 모색하고 문제를 해결하는 능력이 뛰어나다. 센스 있고 유머러스하다. 어디서든 적응을 잘 하고, 친구와 어울리기를 좋아한다. 긴 설명을 싫어하고 운동, 음식 등 주로 오감으로 보고 듣고 만질 수 있는 삶의 모든 것을 즐기는 유형이다. 순발력이 뛰어나며 많은 사실들을 쉽게 기억하고, 예술적인 멋과 판단력을 갖고 있으며, 연장이나 재료들을 다루는 데 능숙하다."
    case "ESFJ" => "동정심이 많고 다른 사람에게 관심을 쏟으며, 나눔과 베풂을 중시한다. 타고난 협력자로서 동료애가 많고 친절하며 능동적인 구성원이다. 수다 떠는 것을 즐기며 정리정돈을 잘하고, 참을성이 많고, 남을 잘 도와준다. 교직, 성직, 판매직, 간호나 의료 분야에 적합하다. 이들은 문제에 대하여 냉철한 입장을 취하기 어려워한다. 반대 의견에 부딪혔을 때나, 자신의 요구가 거절당했을 때 마음의 상처를 많이 받는다."
    case "ESFP" => "사교적이고 활동적이며 수용력이 강하고, 친절하며 낙천적이다. 어떤 상황이든 잘 적응하며 현실적이고 실질적이다. 주변에 관심이 많으며, 사람이나 사물을 다루는 사실적인 상식이 풍부하다. 그러나 이론적인 상식 면에선 놀라울 만큼 약할 수도 있다. 때로는 진지함이 결여되거나 마무리를 등한시하는 경향이 있으나, 조직이나 공동체에서 밝고 재미있는 분위기 조성 역할은 잘하는 편이다."
    case "ENTJ" => "'타고난 리더'라고 불리는 이 유형은 권위와 자신감으로 역량을 발휘한다. 또한 공통된 목표를 통해 사람들을 끌어모으는 통솔력을 행사한다. 이들은 문제 해결 과정을 체계화하는 관리자/지도자가 자신의 역할이라고 생각한다. 주로 목표를 달성하기 위한 장기적인 계획 구상을 즐긴다. 분석적이고 객관적이며, 주변 세계에 자신만의 질서를 부여하는 것을 좋아한다. 질서의 결함이나 비효율성을 빠르게 파악하고, 더 나은 새로운 해결책을 찾는다. 또한 찾는 것에서 그치지 않고 기필코 현실에 구현해내려 하며, 그 과정을 즐긴다."
    case "ENTP" => "특유의 능글거리면서 경쾌한 성격을 갖고 있다. 문제의 본질을 파악하고 논리적으로 판단하려는 기질이 있고, 어느 곳에서나 적응이 빠른 성격이다. 본인의 비전을 실현시키기 위해 노력하는 데다, 특유의 아웃사이더적인 성격까지 겹쳐 그야말로 혁명가의 기질을 띠고 있다. 모든 분야에 있어서, 기존의 체제 자체를 뒤집어 버리거나 전체의 도약을 이루어내는 인물들이 많다."
    case "ENFJ" => "온화하고 적극적이며 책임감이 강하다. 사교성이 풍부하고 동정심이 많다. 상당히 이타적이고 민첩하고 사람 간의 화합을 중요시하며, 참을성이 많다. 다른 사람들의 생각이나 의견에 진지한 관심을 가지고, 대체로 동의한다. 미래의 가능성을 추구하며, 편안하고 능수능란하게 계획을 제시하고 집단을 이끌어가는 능력이 있다."
    case "ENFP" => "정열적이고 활기가 넘치며 상상력이 풍부하다. 온정적이고 창의적이며, 항상 새로운 가능성을 찾고 시도하는 유형이다. 문제 해결에 재빠르고, 관심이 있는 일은 뭐든지 수행해내는 능력과 열성이 있다. 하지만 반복되는 일상적인 일은 참지 못하고 열정을 쏟지 않는다. 또한 한 가지 일을 끝내기도 전에 몇 가지 다른 일을 또 벌이는 경향을 가지고 있다."
    case _ => UNKNOWN_MBTI
  }

  /** A code gets a description of its own exactly when it is one of the sixteen. */
  lemma MbtiDescriptionKnown(mbti: string)
    ensures MbtiDescription(mbti) != UNKNOWN_MBTI <==> IsMbtiCode(mbti)
  {
    if IsMbtiCode(mbti) {
      MbtiCodesKnown(mbti);
    } else {
      MbtiOnlyCodesKnown(mbti);
    }
  }

  lemma MbtiCodesKnown(mbti: string)
    requires IsMbtiCode(mbti)
    ensures MbtiDescription(mbti) != UNKNOWN_MBTI
  {
    assert mbti == [mbti[0], mbti[1], mbti[2], mbti[3]];
  }

  lemma MbtiOnlyCodesKnown(mbti: string)
    ensures MbtiDescription(mbti) != UNKNOWN_MBTI ==> IsMbtiCode(mbti)
  {
    match mbti
    case "ISTJ" => assert IsMbtiCode(mbti);
    case "ISTP" => assert IsMbtiCode(mbti);
    case "ISFJ" => assert IsMbtiCode(mbti);
    case "ISFP" => assert IsMbtiCode(mbti);
    case "INTJ" => assert IsMbtiCode(mbti);
    case "INTP" => assert IsMbtiCode(mbti);
    case "INFP" => assert IsMbtiCode(mbti);
    case "INFJ" => assert IsMbtiCode(mbti);
    case "ESTJ" => assert IsMbtiCode(mbti);
    case "ESTP" => assert IsMbtiCode(mbti);
    case "ESFJ" => assert IsMbtiCode(mbti);
    case "ESFP" => assert IsMbtiCode(mbti);
    case "ENTJ" => assert IsMbtiCode(mbti);
    case "ENTP" => assert IsMbtiCode(mbti);
    case "ENFJ" => assert IsMbtiCode(mbti);
    case "ENFP" => assert IsMbtiCode(mbti);
    case _ =>
  }

  // ---------------------------------------------------------------------
  // The session store

  /** Removing the reset's current key moves it from the unvisited part to the visited one. */
  lemma ResetStep(snapshot: seq<string>, i: nat, uid: string)
    requires Distinct(snapshot) && i < |snapshot|
    ensures OwnedBy(snapshot[i], uid) ==>
      Without(Kept(snapshot[..i], uid) + snapshot[i..], snapshot[i])
        == Kept(snapshot[..i + 1], uid) + snapshot[i + 1..]
    ensures !OwnedBy(snapshot[i], uid) ==>
      Kept(snapshot[..i], uid) + snapshot[i..] == Kept(snapshot[..i + 1], uid) + snapshot[i + 1..]
    ensures Owned(snapshot[..i + 1], uid)
         == Owned(snapshot[..i], uid) + (if OwnedBy(snapshot[i], uid) then {snapshot[i]} else {})
  {
    var k := snapshot[i];
    assert snapshot[..i + 1][..i] == snapshot[..i];
    assert snapshot[..i + 1][i] == k;
    assert snapshot[i..] == [k] + snapshot[i + 1..];
    if OwnedBy(k, uid) {
      ResetStepDeletes(snapshot, i, uid);
    }
  }

  lemma ResetStepDeletes(snapshot: seq<string>, i: nat, uid: string)
    requires Distinct(snapshot) && i < |snapshot|
    ensures Without(Kept(snapshot[..i], uid) + ([snapshot[i]] + snapshot[i + 1..]), snapshot[i])
         == Kept(snapshot[..i], uid) + snapshot[i + 1..]
  {
    DistinctAround(snapshot, i);
    KeptMembers(snapshot[..i], uid);
    WithoutMiddle(Kept(snapshot[..i], uid), snapshot[i], snapshot[i + 1..]);
  }

  /** Removing a key that occurs once, between `a` and `b`, leaves `a` and `b` joined. */
  lemma WithoutMiddle(a: seq<string>, k: string, b: seq<string>)
    requires k !in a && k !in b
    ensures Without(a + ([k] + b), k) == a + b
  {
    WithoutAppend(a, [k] + b, k);
    assert Without([k] + b, k) == Without(b, k) by {
      assert ([k] + b)[0] == k && ([k] + b)[1..] == b;
    }
    WithoutAbsent(a, k);
    WithoutAbsent(b, k);
  }

  /** In a sequence of distinct keys, a key occurs neither before nor after its own position. */
  lemma DistinctAround(ks: seq<string>, i: nat)
    requires Distinct(ks) && i < |ks|
    ensures ks[i] !in ks[..i] && ks[i] !in ks[i + 1..]
  {
    forall j | i < j < |ks|
      ensures ks[j] != ks[i]
    {
    }
  }

  /** One pass of the reset loop keeps the loop's description of the store. */
  lemma ResetAdvance(snapshot: seq<string>, i: nat, uid: string, start: map<string, History>,
                     keys0: seq<string>, memories0: map<string, History>,
                     keys1: seq<string>, memories1: map<string, History>)
    requires Distinct(snapshot) && i < |snapshot|
    requires keys0 == Kept(snapshot[..i], uid) + snapshot[i..]
    requires memories0 == start - Owned(snapshot[..i], uid)
    requires OwnedBy(snapshot[i], uid) ==>
      memories1 == memories0 - {snapshot[i]} && keys1 == Without(keys0, snapshot[i])
    requires !OwnedBy(snapshot[i], uid) ==> memories1 == memories0 && keys1 == keys0
    ensures keys1 == Kept(snapshot[..i + 1], uid) + snapshot[i + 1..]
    ensures memories1 == start - Owned(snapshot[..i + 1], uid)
  {
    ResetStep(snapshot, i, uid);
    MapMinusStep(start, Owned(snapshot[..i], uid), snapshot[i]);
    assert Owned(snapshot[..i], uid) + {} == Owned(snapshot[..i], uid);
  }

  /** Deleting one more key from a map is deleting the enlarged set of keys. */
  lemma MapMinusStep<V>(m: map<string, V>, removed: set<string>, k: string)
    ensures m - removed - {k} == m - (removed + {k})
  {
  }

  /**
   * The reset loop leaves the key sequence `ResetKeys` describes when it
   * stops at `i`: at the end, or at a key that does not unpack.
   */
  lemma ResetStops(ks: seq<string>, uid: string, i: nat, start: map<string, History>,
                    keys: seq<string>, memories: map<string, History>)
    requires i <= FirstMalformed(ks)
    requires i == |ks| || !WellFormedKey(ks[i])
    requires keys == Kept(ks[..i], uid) + ks[i..]
    requires memories == start - Owned(ks[..i], uid)
    ensures FirstMalformed(ks) == i
    ensures keys == ResetKeys(ks, uid)
    ensures memories == start - Owned(ks[..FirstMalformed(ks)], uid)
  {
  }

  /** A key that unpacks is not where the reset stops. */
  lemma FirstMalformedPast(ks: seq<string>, i: nat)
    requires i <= FirstMalformed(ks) && i < |ks| && WellFormedKey(ks[i])
    ensures i + 1 <= FirstMalformed(ks)
  {
  }

  /** The reset stops at position `i` when the keys before it are well formed and it is not. */
  lemma {:induction false} FirstMalformedAt(ks: seq<string>, i: nat)
    requires i < |ks| && !WellFormedKey(ks[i])
    requires forall j :: 0 <= j < i ==> WellFormedKey(ks[j])
    ensures FirstMalformed(ks) == i
  {
    if i > 0 {
      assert WellFormedKey(ks[0]);
      FirstMalformedAt(ks[1..], i - 1);
    }
  }

  /**
   * The class-level store of `MainLlm`: conversation memories by session
   * key, with the keys in insertion order (the order `reset_session_history`
   * visits them in).
   */
  class SessionStore {
    var keys: seq<string>
    var memories: map<string, History>

    ghost predicate Valid()
      reads this
    {
      Distinct(keys) && forall k :: k in memories <==> k in keys
    }

    constructor ()
      ensures Valid() && keys == [] && memories == map[]
    {
      keys := [];
      memories := map[];
    }

    /**
     * `get_session_history`: the session's messages, after creating the
     * session seeded with the greeting (`_create_memory`) if it is absent.
     */
    method GetSessionHistory(sessionId: string) returns (h: History)
      requires Valid()
      modifies this
      ensures Valid()
      ensures sessionId in memories && memories[sessionId] == h
      ensures sessionId in old(memories) ==>
        h == old(memories[sessionId]) && memories == old(memories) && keys == old(keys)
      ensures sessionId !in old(memories) ==>
        && h == [AiMessage(GREETING)]
        && memories == old(memories)[sessionId := h]
        && keys == old(keys) + [sessionId]
    {
      if sessionId !in memories {
        memories := memories[sessionId := [AiMessage(GREETING)]];
        keys := keys + [sessionId];
      }
      h := memories[sessionId];
    }

    /** `delete_session_history`: `pop(session_id, None)`, so an absent key is no error. */
    method DeleteSessionHistory(sessionId: string)
      requires Valid()
      modifies this
      ensures Valid()
      ensures memories == old(memories) - {sessionId}
      ensures keys == Without(old(keys), sessionId)
    {
      WithoutDistinct(keys, sessionId);
      WithoutMembers(keys, sessionId);
      memories := memories - {sessionId};
      keys := Without(keys, sessionId);
    }

    /**
     * `add_message_in_session_history`: the exchange saved into an existing
     * session. `saveContext` stands for the memory's `save_context`, which
     * stores the pair and may summarise. As in the source, `aiMessage` is
     * last and defaults to "". An absent session raises `KeyError` and nothing is created.
     */
    method AddMessageInSessionHistory(sessionId: string, humanMessage: string,
                                      saveContext: (History, string, string) -> History,
                                      aiMessage: string := "")
        returns (r: Result<(), StoreError>)
      requires Valid()
      modifies this
      ensures Valid() && keys == old(keys)
      ensures r.Failure? <==> sessionId !in old(memories)
      ensures r.Failure? ==> r.error == KeyError(sessionId) && memories == old(memories)
      ensures r.Success? ==>
        memories == old(memories)[sessionId := saveContext(old(memories[sessionId]), humanMessage, aiMessage)]
    {
      if sessionId !in memories {
        return Failure(KeyError(sessionId));
      }
      memories := memories[sessionId := saveContext(memories[sessionId], humanMessage, aiMessage)];
      r := Success(());
    }

    /**
     * `reset_session_history`: over a snapshot of the keys, in order, each
     * key is split on '@' and deleted when its user part is `uid`. A key
     * that does not split into two parts raises `ValueError` there, and the
     * deletions made before it stay.
     */
    method ResetSessionHistory(uid: string) returns (r: Result<(), StoreError>)
      requires Valid()
      modifies this
      ensures Valid()
      ensures keys == ResetKeys(old(keys), uid)
      ensures r.Success? <==> FirstMalformed(old(keys)) == |old(keys)|
      ensures r.Failure? ==> r.error == ValueError(old(keys)[FirstMalformed(old(keys))])
      ensures memories == old(memories) - Owned(old(keys)[..FirstMalformed(old(keys))], uid)
    {
      var snapshot := keys;
      var i := 0;
      while i < |snapshot|
        invariant 0 <= i <= |snapshot|
        invariant Valid() && Distinct(snapshot)
        invariant i <= FirstMalformed(snapshot)
        invariant keys == Kept(snapshot[..i], uid) + snapshot[i..]
        invariant memories == old(memories) - Owned(snapshot[..i], uid)
      {
        var ok := ResetPass(snapshot, i, uid, old(memories));
        if !ok {
          return Failure(ValueError(snapshot[i]));
        }
        i := i + 1;
      }
      ResetStops(snapshot, uid, i, old(memories), keys, memories);
      r := Success(());
    }

    /**
     * The loop body of `reset_session_history` at position `i` of the
     * snapshot: either the loop's description of the store moves on to
     * `i + 1`, or the key there does not unpack and the store is what the
     * whole reset leaves.
     */
    method ResetPass(snapshot: seq<string>, i: nat, uid: string, ghost start: map<string, History>)
        returns (ok: bool)
      requires Valid() && Distinct(snapshot) && i < |snapshot| && i <= FirstMalformed(snapshot)
      requires keys == Kept(snapshot[..i], uid) + snapshot[i..]
      requires memories == start - Owned(snapshot[..i], uid)
      modifies this
      ensures Valid()
      ensures ok == WellFormedKey(snapshot[i])
      ensures ok ==> i + 1 <= FirstMalformed(snapshot)
      ensures ok ==> keys == Kept(snapshot[..i + 1], uid) + snapshot[i + 1..]
      ensures ok ==> memories == start - Owned(snapshot[..i + 1], uid)
      ensures !ok ==> FirstMalformed(snapshot) == i && keys == ResetKeys(snapshot, uid)
      ensures !ok ==> memories == start - Owned(snapshot[..FirstMalformed(snapshot)], uid)
    {
      ok := ResetKey(snapshot[i], uid);
      if !ok {
        ResetStops(snapshot, uid, i, start, keys, memories);
        return;
      }
      ResetAdvance(snapshot, i, uid, start, old(keys), old(memories), keys, memories);
      FirstMalformedPast(snapshot, i);
    }

    /**
     * One pass of the reset loop: the key is unpacked, and deleted when
     * its user part is `uid`. `ok` is false where the unpacking raises.
     */
    method ResetKey(key: string, uid: string) returns (ok: bool)
      requires Valid()
      modifies this
      ensures Valid()
      ensures ok == WellFormedKey(key)
      ensures OwnedBy(key, uid) ==> memories == old(memories) - {key} && keys == Without(old(keys), key)
      ensures !OwnedBy(key, uid) ==> memories == old(memories) && keys == old(keys)
    {
      var parts := Split(key, '@');
      if |parts| != 2 {
        return false;
      }
      if parts[1] == uid {
        DeleteSessionHistory(key);
      }
      ok := true;
    }

    /**
     * `main_stream`: the prompt variables built from the persona, the
     * session's history fetched (and created if need be) by the history
     * wrapper, the backend's chunks for them, filtered. `stream` stands for
     * the chat model behind the prompt; the semaphore around it is not
     * modelled.
     */
    method MainStream(userMessage: string, persona: map<string, string>, ragPrompt: string,
                      sessionId: string, stream: (StreamInput, History) -> seq<string>)
        returns (out: seq<string>)
      requires Valid()
      modifies this
      ensures Valid()
      ensures sessionId in memories
      ensures out == FilterStream(stream(BuildStreamInput(userMessage, persona, ragPrompt), memories[sessionId]))
      ensures sessionId in old(memories) ==> memories == old(memories) && keys == old(keys)
      ensures sessionId !in old(memories) ==>
        memories == old(memories)[sessionId := [AiMessage(GREETING)]] && keys == old(keys) + [sessionId]
    {
      var input := BuildStreamInput(userMessage, persona, ragPrompt);
      var history := GetSessionHistory(sessionId);
      var chunks := stream(input, history);
      out := FilterChunks(chunks);
    }
  }
}
