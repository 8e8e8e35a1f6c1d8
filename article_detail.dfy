/** The article page's own logic: the read-aloud button's state machine,
    the summary modal, the reading-time estimate with its tag stripping,
    and the byte loop that turns decoded audio text into bytes. */
module ArticleDetail {
  import opened Text
  import opened Wrappers

  // ---------------------------------------------------------------------
  // Tag stripping: `content.replace(/<[^>]*>?/gm, '')`

  /** What is left after the tag that started just before `s`: everything
      after the next '>', or nothing when no '>' follows. */
  function AfterTag(s: string): (r: string)
    ensures |r| <= |s|
    ensures '>' !in s ==> r == ""
  {
    if s == [] then []
    else if s[0] == '>' then s[1..]
    else AfterTag(s[1..])
  }

  /** Every '<' is removed together with everything up to and including
      the next '>', or up to the end when there is none. */
  function StripTags(s: string): (r: string)
    ensures |r| <= |s|
    ensures '<' !in r
    decreases |s|
  {
    if s == [] then []
    else if s[0] == '<' then StripTags(AfterTag(s[1..]))
    else [s[0]] + StripTags(s[1..])
  }

  /** Text without '<' passes through unchanged. */
  lemma {:induction false} StripTagsKeepsPlainText(s: string)
    requires '<' !in s
    ensures StripTags(s) == s
    decreases |s|
  {
    if s != [] {
      assert s[0] in s;
      assert forall c :: c in s[1..] ==> c in s;
      StripTagsKeepsPlainText(s[1..]);
    }
  }

  /** Stripping twice is stripping once. */
  lemma StripTagsIdempotent(s: string)
    ensures StripTags(StripTags(s)) == StripTags(s)
  {
    StripTagsKeepsPlainText(StripTags(s));
  }

  lemma StripTagsCons(c: char, s: string)
    requires c != '<'
    ensures StripTags([c] + s) == [c] + StripTags(s)
  {
    assert ([c] + s)[1..] == s;
  }

  lemma StripTagsOpen(s: string)
    ensures StripTags("<" + s) == StripTags(AfterTag(s))
  {
    assert ("<" + s)[1..] == s;
  }

  /** A closed tag vanishes with its contents; the text before it stays. */
  lemma {:induction false} StripClosedTag(p: string, m: string, q: string)
    requires '<' !in p && '>' !in m
    ensures StripTags(p + ("<" + (m + (">" + q)))) == p + StripTags(q)
    decreases |p|
  {
    var tail := "<" + (m + (">" + q));
    if p == [] {
      StripTagsOpen(m + (">" + q));
      AfterTagSkips(m, q);
      assert p + tail == tail;
    } else {
      assert p[0] in p;
      assert forall c :: c in p[1..] ==> c in p;
      StripClosedTag(p[1..], m, q);
      assert p + tail == [p[0]] + (p[1..] + tail);
      StripTagsCons(p[0], p[1..] + tail);
      assert p == [p[0]] + p[1..];
    }
  }

  /** A tag that is never closed removes everything to the end. */
  lemma {:induction false} StripOpenTag(p: string, m: string)
    requires '<' !in p && '>' !in m
    ensures StripTags(p + ("<" + m)) == p
    decreases |p|
  {
    if p == [] {
      StripTagsOpen(m);
      assert p + ("<" + m) == "<" + m;
    } else {
      assert p[0] in p;
      assert forall c :: c in p[1..] ==> c in p;
      StripOpenTag(p[1..], m);
      assert p + ("<" + m) == [p[0]] + (p[1..] + ("<" + m));
      StripTagsCons(p[0], p[1..] + ("<" + m));
      assert p == [p[0]] + p[1..];
    }
  }

  lemma {:induction false} AfterTagSkips(m: string, q: string)
    requires '>' !in m
    ensures AfterTag(m + (">" + q)) == q
    decreases |m|
  {
    if m == [] {
      assert m + (">" + q) == ">" + q;
      assert (">" + q)[1..] == q;
    } else {
      assert m[0] in m;
      assert forall c :: c in m[1..] ==> c in m;
      AfterTagSkips(m[1..], q);
      assert (m + (">" + q))[1..] == m[1..] + (">" + q);
    }
  }

  // ---------------------------------------------------------------------
  // Reading time

  /** `s.split(/\s+/)`: the pieces between maximal runs of white space; a
      run at either end leaves an empty piece there, and "" gives [""]. */
  function SplitOnWhitespace(s: string): (r: seq<string>)
    ensures |r| >= 1
    ensures forall i :: 0 <= i < |r| ==> forall c :: c in r[i] ==> !IsWhitespace(c)
    decreases |s|
  {
    if s == [] then [""]
    else if IsWhitespace(s[0]) then [""] + SplitOnWhitespace(TrimStart(s[1..]))
    else
      var rest := SplitOnWhitespace(s[1..]);
      [[s[0]] + rest[0]] + rest[1..]
  }

  function Flatten(pieces: seq<string>): string {
    if pieces == [] then "" else pieces[0] + Flatten(pieces[1..])
  }

  /** The characters of `s` that are not white space, in order. */
  function NonWhitespace(s: string): string {
    if s == [] then ""
    else (if IsWhitespace(s[0]) then "" else [s[0]]) + NonWhitespace(s[1..])
  }

  lemma {:induction false} NonWhitespaceOfTrimStart(s: string)
    ensures NonWhitespace(TrimStart(s)) == NonWhitespace(s)
    decreases |s|
  {
    if s != [] && IsWhitespace(s[0]) {
      NonWhitespaceOfTrimStart(s[1..]);
    }
  }

  /** The pieces hold exactly the characters of `s` that are not white
      space, in order: splitting loses nothing but the separators. */
  lemma {:induction false} SplitKeepsText(s: string)
    ensures Flatten(SplitOnWhitespace(s)) == NonWhitespace(s)
    decreases |s|
  {
    if s == [] {
    } else if IsWhitespace(s[0]) {
      SplitKeepsText(TrimStart(s[1..]));
      NonWhitespaceOfTrimStart(s[1..]);
      FlattenCons("", SplitOnWhitespace(TrimStart(s[1..])));
    } else {
      SplitKeepsText(s[1..]);
      FlattenGrowFirst(s[0], SplitOnWhitespace(s[1..]));
    }
  }

  lemma FlattenCons(p: string, rest: seq<string>)
    ensures Flatten([p] + rest) == p + Flatten(rest)
  {
    assert ([p] + rest)[1..] == rest;
  }

  lemma FlattenGrowFirst(c: char, pieces: seq<string>)
    requires |pieces| >= 1
    ensures Flatten([[c] + pieces[0]] + pieces[1..]) == [c] + Flatten(pieces)
  {
    var p, rest := pieces[0], pieces[1..];
    var grown := [[c] + p] + rest;
    assert grown[0] == [c] + p && grown[1..] == rest;
    assert Flatten(grown) == ([c] + p) + Flatten(rest);
    assert Flatten(pieces) == p + Flatten(rest);
    ConcatAssoc([c], p, Flatten(rest));
  }

  /** Stated apart so that the solver meets associativity on three plain
      strings rather than inside the unfolded `Flatten` terms. */
  lemma ConcatAssoc(a: string, b: string, c: string)
    ensures (a + b) + c == a + (b + c)
  {
  }

  /** Text without white space is one piece. */
  lemma {:induction false} SplitWord(s: string)
    requires forall c :: c in s ==> !IsWhitespace(c)
    ensures SplitOnWhitespace(s) == [s]
    decreases |s|
  {
    if s != [] {
      assert s[0] in s;
      assert forall c :: c in s[1..] ==> c in s;
      SplitWord(s[1..]);
      assert [s[0]] + s[1..] == s;
    }
  }

  /** Index `i` starts a maximal run of white space. */
  predicate RunStartAt(s: string, i: nat)
    requires i < |s|
  {
    IsWhitespace(s[i]) && (i == 0 || !IsWhitespace(s[i - 1]))
  }

  /** The number of run starts at indices `k` and later. */
  function RunsFrom(s: string, k: nat): nat
    requires k <= |s|
    decreases |s| - k
  {
    if k == |s| then 0 else (if RunStartAt(s, k) then 1 else 0) + RunsFrom(s, k + 1)
  }

  /** The number of maximal runs of white space in `s`. */
  function Runs(s: string): nat {
    RunsFrom(s, 0)
  }

  lemma {:induction false} RunsShift(c: char, t: string, k: nat)
    requires 1 <= k <= |t|
    ensures RunsFrom([c] + t, k + 1) == RunsFrom(t, k)
    decreases |t| - k
  {
    if k < |t| {
      assert ([c] + t)[k + 1] == t[k] && ([c] + t)[k] == t[k - 1];
      RunsShift(c, t, k + 1);
    }
  }

  /** How one more character in front changes the number of runs. */
  lemma RunsCons(c: char, t: string)
    ensures !IsWhitespace(c) ==> Runs([c] + t) == Runs(t)
    ensures IsWhitespace(c) && (t == [] || !IsWhitespace(t[0])) ==> Runs([c] + t) == 1 + Runs(t)
    ensures IsWhitespace(c) && t != [] && IsWhitespace(t[0]) ==> Runs([c] + t) == Runs(t)
  {
    var s := [c] + t;
    if t == [] {
      assert RunsFrom(s, 1) == 0;
    } else {
      RunsShift(c, t, 1);
      assert s[0] == c && s[1] == t[0];
      assert RunsFrom(s, 1) == (if RunStartAt(s, 1) then 1 else 0) + RunsFrom(s, 2);
      assert Runs(s) == (if RunStartAt(s, 0) then 1 else 0) + (if RunStartAt(s, 1) then 1 else 0) + RunsFrom(s, 2);
      assert Runs(t) == (if RunStartAt(t, 0) then 1 else 0) + RunsFrom(t, 1);
    }
  }

  /** A white-space character followed by `t` is one run plus the runs of
      what follows the leading white space of `t`. */
  lemma {:induction false} RunsOfLeadingWhitespace(c: char, t: string)
    requires IsWhitespace(c)
    ensures Runs([c] + t) == 1 + Runs(TrimStart(t))
    decreases |t|
  {
    RunsCons(c, t);
    if t != [] && IsWhitespace(t[0]) {
      assert t == [t[0]] + t[1..];
      RunsOfLeadingWhitespace(t[0], t[1..]);
    }
  }

  /** `split(/\s+/)` gives one piece more than there are runs of white space. */
  lemma {:induction false} SplitCount(s: string)
    ensures |SplitOnWhitespace(s)| == 1 + Runs(s)
    decreases |s|
  {
    if s != [] {
      assert s == [s[0]] + s[1..];
      RunsCons(s[0], s[1..]);
      if IsWhitespace(s[0]) {
        SplitCount(TrimStart(s[1..]));
        RunsOfLeadingWhitespace(s[0], s[1..]);
      } else {
        SplitCount(s[1..]);
      }
    }
  }

  const WORDS_PER_MINUTE := 225

  /** `Math.ceil(words / 225)` over the pieces of the tag-stripped content:
      the least whole number of minutes covering the words, never below 1. */
  function ReadingTime(content: string): (r: nat)
    ensures var words := |SplitOnWhitespace(StripTags(content))|;
      r >= 1 && (r - 1) * WORDS_PER_MINUTE < words <= r * WORDS_PER_MINUTE
    ensures var words := 1 + Runs(StripTags(content));
      (r - 1) * WORDS_PER_MINUTE < words <= r * WORDS_PER_MINUTE
  {
    SplitCount(StripTags(content));
    var words := |SplitOnWhitespace(StripTags(content))|;
    (words + WORDS_PER_MINUTE - 1) / WORDS_PER_MINUTE
  }

  // ---------------------------------------------------------------------
  // Read-aloud button

  datatype AudioState = Idle | Generating | Playing | Paused | Error

  /** The browser audio context, when one is held. */
  datatype ContextStatus = Running | Suspended

  /** How the asynchronous synthesis ended: no audio data came back, the
      data could not be decoded or played (anything thrown), or playback started. */
  datatype Synthesis = NoAudio | SetupFailed | Started

  /** The state a click leads to, counting the synthesis as pending. */
  function NextOnClick(s: AudioState): AudioState {
    match s
    case Idle => Generating
    case Playing => Paused
    case Paused => Playing
    case Generating => Generating
    case Error => Error
  }

  /** The button's `disabled` flag. */
  function Disabled(s: AudioState): bool {
    s == Generating || s == Error
  }

  /** The button is disabled exactly in the states where a click changes nothing. */
  lemma DisabledIffClickIgnored(s: AudioState)
    ensures Disabled(s) <==> NextOnClick(s) == s
  {
  }

  /** Pausing then resuming returns to playback. */
  lemma PauseResume()
    ensures NextOnClick(NextOnClick(Playing)) == Playing
  {
  }

  /** The label the button shows. */
  function ButtonText(s: AudioState): (r: string)
    ensures Disabled(s) <==> r == "Generating Audio..." || r == "Audio Error"
  {
    match s
    case Idle => "Listen to Article"
    case Generating => "Generating Audio..."
    case Playing => "Pause Audio"
    case Paused => "Resume Audio"
    case Error => "Audio Error"
  }

  class DetailController {
    var audioState: AudioState
    /** `audioContextRef.current`: the context, when one is held. */
    var context: Option<ContextStatus>
    /** `audioSourceRef.current !== null`. */
    var hasSource: bool
    var isSummarizing: bool
    var isModalOpen: bool
    var summary: string

    /** The handles are held exactly while audio is playing or paused, and
        the context is suspended exactly while paused. */
    ghost predicate AudioValid()
      reads this
    {
      && (audioState == Playing ==> context == Some(Running) && hasSource)
      && (audioState == Paused ==> context == Some(Suspended) && hasSource)
      && (audioState !in {Playing, Paused} ==> context == None && !hasSource)
    }

    constructor ()
      ensures audioState == Idle && context == None && !hasSource
      ensures !isSummarizing && !isModalOpen && summary == ""
      ensures AudioValid()
    {
      audioState := Idle;
      context := None;
      hasSource := false;
      isSummarizing := false;
      isModalOpen := false;
      summary := "";
    }

    /** `handleAudioClick` up to its first `await`: idle starts synthesis,
        playing suspends, paused resumes, and the disabled states do nothing. */
    method Click()
      requires AudioValid()
      modifies this`audioState, this`context
      ensures AudioValid()
      ensures audioState == NextOnClick(old(audioState))
      ensures old(audioState) == Playing ==> context == Some(Suspended)
      ensures old(audioState) == Paused ==> context == Some(Running)
      ensures old(audioState) !in {Playing, Paused} ==> context == old(context)
    {
      match audioState {
        case Idle =>
          audioState := Generating;
        case Playing =>
          context := Some(Suspended);
          audioState := Paused;
        case Paused =>
          context := Some(Running);
          audioState := Playing;
        case Generating =>
        case Error =>
      }
    }

    /** The rest of `handleAudioClick` once synthesis has settled: playback
        holds both handles; no data or anything thrown ends in the error state. */
    method SynthesisSettled(outcome: Synthesis)
      requires audioState == Generating && AudioValid()
      modifies this`audioState, this`context, this`hasSource
      ensures AudioValid()
      ensures outcome == Started ==> audioState == Playing
      ensures outcome != Started ==> audioState == Error && context == None && !hasSource
    {
      if outcome == Started {
        context := Some(Running);
        hasSource := true;
        audioState := Playing;
      } else {
        audioState := Error;
      }
    }

    /** `source.onended`: playback finished by itself. */
    method PlaybackEnded()
      requires audioState == Playing && AudioValid()
      modifies this`audioState, this`context, this`hasSource
      ensures audioState == Idle && context == None && !hasSource
      ensures AudioValid()
    {
      audioState := Idle;
      context := None;
      hasSource := false;
    }

    /** `handleSummarize` up to its `await`. */
    method Summarize()
      modifies this`isSummarizing, this`isModalOpen, this`summary
      ensures isSummarizing && isModalOpen && summary == ""
    {
      isSummarizing := true;
      isModalOpen := true;
      summary := "";
    }

    /** The rest of `handleSummarize`: the result is stored whether or not
        the modal is still open. */
    method SummaryReady(result: string)
      requires isSummarizing
      modifies this`isSummarizing, this`summary
      ensures summary == result && !isSummarizing
    {
      summary := result;
      isSummarizing := false;
    }

    method CloseModal()
      modifies this`isModalOpen, this`summary
      ensures !isModalOpen && summary == ""
    {
      isModalOpen := false;
      summary := "";
    }
  }

  // ---------------------------------------------------------------------
  // decode

  newtype byte = x: int | 0 <= x < 256

  /** The byte loop of `decode`, given the binary string `atob` returned
      (every character of which is below 256). */
  method Decode(binary: string) returns (bytes: array<byte>)
    requires forall i :: 0 <= i < |binary| ==> binary[i] as int < 256
    ensures bytes.Length == |binary|
    ensures forall i :: 0 <= i < |binary| ==> bytes[i] as int == binary[i] as int
  {
    bytes := new byte[|binary|];
    var i := 0;
    while i < |binary|
      invariant 0 <= i <= |binary|
      invariant forall j :: 0 <= j < i ==> bytes[j] as int == binary[j] as int
    {
      bytes[i] := binary[i] as int as byte;
      i := i + 1;
    }
  }
}
