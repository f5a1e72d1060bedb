/** The dialogue state machine of the kiosk (`listening_loop` in
    device/app.py): it reads the streaming recognizer's responses, stops on
    the word "exit" or "quit", waits for the activation word and then answers
    the next utterance from the question/answer table.

    The side effects on hardware are emitted as values: the white LED on BCM
    pin 17, the red LED on BCM pin 18, and the spoken answer.  The fuzzy
    string score `fuzz.ratio` is a parameter. */
module Listening {

  datatype Option<T> = None | Some(value: T)

  /** The speaker's name, waited for while idle (line 24). */
  const ACTIVATION_WORD: string := "simba"
  /** The least `fuzz.ratio` score at which a question counts as asked (line 183). */
  const MATCH_THRESHOLD: int := 70

  /** A similarity score, as `fuzz.ratio` returns it. */
  type Score = x: int | 0 <= x <= 100
  /** `fuzz.ratio(transcript, question)`. */
  type Ratio = (string, string) -> Score
  /** The question/answer table, in its iteration order. */
  type KnowledgeBase = seq<(string, string)>

  /** The parts of a streaming recognition response the loop reads. */
  datatype Alternative = Alternative(transcript: string)
  datatype RecognitionResult = RecognitionResult(alternatives: seq<Alternative>, isFinal: bool)
  datatype Response = Response(results: seq<RecognitionResult>)

  /** The observable effects: GPIO writes to pins 17 and 18, and an answer spoken. */
  datatype Effect = Pin17High | Pin17Low | Pin18High | Speak(answer: string) | Pin18Low

  // ---------------------------------------------------------------------
  // Text matching

  /** ASCII lower-casing of one character. */
  function LowerChar(c: char): char
  {
    if 'A' <= c <= 'Z' then (c as int + 32) as char else c
  }

  /** `str.lower()`, on ASCII letters. */
  function Lower(s: string): string
  {
    seq(|s|, i requires 0 <= i < |s| => LowerChar(s[i]))
  }

  /** A character of the regular-expression class `\w`, on ASCII. */
  predicate IsWordChar(c: char)
  {
    'a' <= c <= 'z' || 'A' <= c <= 'Z' || '0' <= c <= '9' || c == '_'
  }

  /** `\b(exit|quit)\b` with `re.I` matches at position `i` of `t`. */
  predicate ExitWordAt(t: string, i: int)
  {
    && 0 <= i && i + 4 <= |t|
    && (Lower(t[i..i + 4]) == "exit" || Lower(t[i..i + 4]) == "quit")
    && (i == 0 || !IsWordChar(t[i - 1]))
    && (i + 4 == |t| || !IsWordChar(t[i + 4]))
  }

  /** `re.search(r'\b(exit|quit)\b', t, re.I)` finds a match (line 169). */
  predicate HasExitWord(t: string)
  {
    exists i | 0 <= i <= |t| - 4 :: ExitWordAt(t, i)
  }

  /** `w` occurs in `s` at position `i`. */
  predicate OccursAt(s: string, w: string, i: int)
  {
    0 <= i && i + |w| <= |s| && s[i..i + |w|] == w
  }

  /** Python's `w in s` on strings. */
  predicate Contains(s: string, w: string)
  {
    exists i | 0 <= i <= |s| - |w| :: OccursAt(s, w, i)
  }

  /** Lower-casing works character by character. */
  lemma LowerAppend(a: string, b: string)
    ensures Lower(a + b) == Lower(a) + Lower(b)
  {
    assert forall i | 0 <= i < |a + b| :: Lower(a + b)[i] == (Lower(a) + Lower(b))[i];
  }

  /** A standalone `exit` or `quit`, in any case, anywhere in an utterance is
      found: a non-word character or the edge of the text on both sides is
      all the match needs. */
  lemma ExitWordInUtterance(before: string, word: string, after: string)
    requires Lower(word) == "exit" || Lower(word) == "quit"
    requires before == [] || !IsWordChar(before[|before| - 1])
    requires after == [] || !IsWordChar(after[0])
    ensures HasExitWord(before + word + after)
  {
    var t := before + word + after;
    var i := |before|;
    assert t[i..i + 4] == word;
    assert i == 0 || t[i - 1] == before[|before| - 1];
    assert i + 4 == |t| || t[i + 4] == after[0];
    assert ExitWordAt(t, i);
  }

  /** Lower-casing keeps word characters and non-word characters apart, and
      doing it twice is doing it once. */
  lemma LowerCharFacts(c: char)
    ensures IsWordChar(LowerChar(c)) == IsWordChar(c)
    ensures LowerChar(LowerChar(c)) == LowerChar(c)
  {
  }

  /** The exit check ignores case: lower-casing the transcript first finds
      a match exactly when the original does. */
  lemma ExitWordIgnoresCase(t: string)
    ensures HasExitWord(Lower(t)) <==> HasExitWord(t)
  {
    var l := Lower(t);
    forall i | 0 <= i <= |t| - 4
      ensures ExitWordAt(l, i) <==> ExitWordAt(t, i)
    {
      LowerCharFacts(t[i]);
      LowerCharFacts(t[i + 1]);
      LowerCharFacts(t[i + 2]);
      LowerCharFacts(t[i + 3]);
      assert Lower(l[i..i + 4]) == Lower(t[i..i + 4]);
      if i > 0 {
        LowerCharFacts(t[i - 1]);
      }
      if i + 4 < |t| {
        LowerCharFacts(t[i + 4]);
      }
    }
  }

  /** The speaker's name is found whatever its case and wherever it stands in
      the utterance, even inside a longer word. */
  lemma ActivationWordAnywhere(before: string, word: string, after: string)
    requires Lower(word) == ACTIVATION_WORD
    ensures Contains(Lower(before + word + after), ACTIVATION_WORD)
  {
    LowerAppend(before + word, after);
    LowerAppend(before, word);
    var l := Lower(before + word + after);
    assert l == Lower(before) + ACTIVATION_WORD + Lower(after);
    assert l[|before|..|before| + |ACTIVATION_WORD|] == ACTIVATION_WORD;
    assert OccursAt(l, ACTIVATION_WORD, |before|);
  }

  // ---------------------------------------------------------------------
  // The question/answer table

  /** The table's keys are pairwise distinct, as the keys of a dict are. */
  predicate DistinctKeys(kb: KnowledgeBase)
  {
    forall i, j | 0 <= i < j < |kb| :: kb[i].0 != kb[j].0
  }

  /** The dict built from the pairs of `kb` (a later pair overrides an earlier one). */
  function AsMap(kb: KnowledgeBase): (m: map<string, string>)
    ensures forall i | 0 <= i < |kb| :: kb[i].0 in m
    ensures forall q | q in m :: exists i | 0 <= i < |kb| :: kb[i].0 == q
    decreases |kb|
  {
    if kb == [] then map[]
    else
      var init := kb[..|kb| - 1];
      assert forall i | 0 <= i < |kb| - 1 :: init[i] == kb[i];
      AsMap(init)[kb[|kb| - 1].0 := kb[|kb| - 1].1]
  }

  /** With distinct keys, looking up the key of an entry gives that entry's answer. */
  lemma {:induction false} AsMapLookup(kb: KnowledgeBase, i: int)
    requires DistinctKeys(kb) && 0 <= i < |kb|
    ensures AsMap(kb)[kb[i].0] == kb[i].1
    decreases |kb|
  {
    if i < |kb| - 1 {
      var init := kb[..|kb| - 1];
      assert init[i] == kb[i];
      assert DistinctKeys(init) by {
        forall a, b | 0 <= a < b < |init|
          ensures init[a].0 != init[b].0
        {
          assert init[a] == kb[a] && init[b] == kb[b];
        }
      }
      AsMapLookup(init, i);
      assert kb[i].0 != kb[|kb| - 1].0;
    }
  }

  /** The first question, in iteration order, whose score against `t` reaches
      the threshold: the `for question in ...: if ...: break` of lines 181-189. */
  function FirstMatch(kb: KnowledgeBase, ratio: Ratio, t: string): (r: Option<nat>)
    ensures r.Some? ==> r.value < |kb| && ratio(t, kb[r.value].0) >= MATCH_THRESHOLD
    ensures r.Some? ==> forall j | 0 <= j < r.value :: ratio(t, kb[j].0) < MATCH_THRESHOLD
    ensures r.None? <==> forall j | 0 <= j < |kb| :: ratio(t, kb[j].0) < MATCH_THRESHOLD
    decreases |kb|
  {
    if kb == [] then None
    else if ratio(t, kb[0].0) >= MATCH_THRESHOLD then Some(0)
    else
      var rest := FirstMatch(kb[1..], ratio, t);
      assert forall j | 1 <= j < |kb| :: kb[1..][j - 1] == kb[j];
      match rest
      case None => None
      case Some(i) => Some(i + 1)
  }

  /** The effects of answering `t` while activated, after the white LED is
      turned off: for the first matching question, the red LED on, its answer
      spoken, the red LED off; nothing if no question matches. */
  function Answer(kb: KnowledgeBase, ratio: Ratio, t: string): seq<Effect>
  {
    match FirstMatch(kb, ratio, t)
    case None => []
    case Some(i) => [Pin18High, Speak(AsMap(kb)[kb[i].0]), Pin18Low]
  }

  /** At most one answer is given, and it is the first question in
      iteration order that reaches the threshold, even if a later one scores
      higher; if none reaches it, nothing is said. */
  lemma AnswerIsFirstMatch(kb: KnowledgeBase, ratio: Ratio, t: string)
    requires DistinctKeys(kb)
    ensures Answer(kb, ratio, t) == [] <==> forall j | 0 <= j < |kb| :: ratio(t, kb[j].0) < MATCH_THRESHOLD
    ensures Answer(kb, ratio, t) != [] ==>
      exists i | 0 <= i < |kb| ::
        && ratio(t, kb[i].0) >= MATCH_THRESHOLD
        && (forall j | 0 <= j < i :: ratio(t, kb[j].0) < MATCH_THRESHOLD)
        && Answer(kb, ratio, t) == [Pin18High, Speak(kb[i].1), Pin18Low]
  {
    match FirstMatch(kb, ratio, t)
    case None =>
    case Some(i) =>
      AsMapLookup(kb, i);
  }

  // ---------------------------------------------------------------------
  // One response

  /** The transcript the loop acts on: that of the top alternative of the
      first result, when there is one and the result is final (lines 137-157). */
  function FinalTranscript(resp: Response): Option<string>
  {
    if resp.results == [] then None
    else
      var result := resp.results[0];
      if result.alternatives == [] || !result.isFinal then None
      else Some(result.alternatives[0].transcript)
  }

  /** The response ends the loop (lines 169-171). */
  predicate IsExit(resp: Response)
  {
    FinalTranscript(resp).Some? && HasExitWord(FinalTranscript(resp).value)
  }

  /** The state after one response: the new `activated`, the effects in order,
      and whether the loop breaks. */
  datatype Outcome = Outcome(activated: bool, effects: seq<Effect>, stop: bool)

  /** The body of the `for response in responses` loop (lines 137-192). */
  function Step(activated: bool, resp: Response, kb: KnowledgeBase, ratio: Ratio): (o: Outcome)
    // a response with no result, no alternative or no final result changes nothing
    ensures FinalTranscript(resp).None? ==> o == Outcome(activated, [], false)
    // the loop stops exactly on an exit word, from either state, with no effect
    ensures o.stop <==> IsExit(resp)
    ensures o.stop ==> o.activated == activated && o.effects == []
    // while idle, the activation word turns the white LED on and nothing else happens
    ensures !o.stop && !activated && FinalTranscript(resp).Some? ==>
      (o.activated <==> Contains(Lower(FinalTranscript(resp).value), ACTIVATION_WORD))
      && o.effects == (if o.activated then [Pin17High] else [])
    // while activated, a final utterance turns the white LED off, may be answered,
    // and always returns to idle
    ensures !o.stop && activated && FinalTranscript(resp).Some? ==>
      !o.activated && o.effects == [Pin17Low] + Answer(kb, ratio, FinalTranscript(resp).value)
  {
    match FinalTranscript(resp)
    case None => Outcome(activated, [], false)
    case Some(t) =>
      if HasExitWord(t) then Outcome(activated, [], true)
      else if !activated && Contains(Lower(t), ACTIVATION_WORD) then Outcome(true, [Pin17High], false)
      else if activated then Outcome(false, [Pin17Low] + Answer(kb, ratio, t), false)
      else Outcome(false, [], false)
  }

  // ---------------------------------------------------------------------
  // The whole loop

  /** The loop's state after a prefix of the responses: `activated`, the
      effects so far, how many responses were read, and whether it broke. */
  datatype Loop = Loop(activated: bool, effects: seq<Effect>, consumed: nat, stopped: bool)

  /** `listening_loop` over `rs`, from `activated = False` (line 134). */
  function Run(rs: seq<Response>, kb: KnowledgeBase, ratio: Ratio): Loop
    decreases |rs|
  {
    if rs == [] then Loop(false, [], 0, false)
    else
      var p := Run(rs[..|rs| - 1], kb, ratio);
      if p.stopped then p
      else
        var o := Step(p.activated, rs[|rs| - 1], kb, ratio);
        Loop(o.activated, p.effects + o.effects, p.consumed + 1, o.stop)
  }

  /** After the break no later response is read: extending the responses
      changes nothing. */
  lemma {:induction false} RunAfterStop(rs: seq<Response>, more: seq<Response>, kb: KnowledgeBase, ratio: Ratio)
    requires Run(rs, kb, ratio).stopped
    ensures Run(rs + more, kb, ratio) == Run(rs, kb, ratio)
    decreases |more|
  {
    if more != [] {
      var init := more[..|more| - 1];
      assert (rs + more)[..|rs + more| - 1] == rs + init;
      RunAfterStop(rs, init, kb, ratio);
    } else {
      assert rs + more == rs;
    }
  }

  /** The loop stops exactly when some response is an exit, and then the
      last response it read is the first exit; otherwise it reads them all. */
  lemma {:induction false} RunStopsAtFirstExit(rs: seq<Response>, kb: KnowledgeBase, ratio: Ratio)
    ensures var r := Run(rs, kb, ratio);
      && r.consumed <= |rs|
      && (r.stopped <==> exists k | 0 <= k < |rs| :: IsExit(rs[k]))
      && (r.stopped ==> 0 < r.consumed && IsExit(rs[r.consumed - 1])
                          && forall k | 0 <= k < r.consumed - 1 :: !IsExit(rs[k]))
      && (!r.stopped ==> r.consumed == |rs|)
    decreases |rs|
  {
    if rs != [] {
      var init := rs[..|rs| - 1];
      RunStopsAtFirstExit(init, kb, ratio);
      assert forall k | 0 <= k < |init| :: init[k] == rs[k];
    }
  }

  /** The two LEDs as the effects leave them, and whether the answer was
      spoken since the red LED went on. */
  datatype Panel = Panel(white: bool, red: bool, spoke: bool)

  /** One effect on the panel, or `None` if it breaks the discipline: the
      white LED toggles only from the opposite level and only while the red
      one is off; the red LED goes on only while the white one is off, an
      answer is spoken only once while red is on, and red goes off after it. */
  function Apply(p: Panel, e: Effect): Option<Panel>
  {
    match e
    case Pin17High => if !p.white then Some(p.(white := true)) else None
    case Pin17Low => if p.white && !p.red then Some(p.(white := false)) else None
    case Pin18High => if !p.white && !p.red then Some(Panel(false, true, false)) else None
    case Speak(_) => if p.red && !p.spoke then Some(p.(spoke := true)) else None
    case Pin18Low => if p.red && p.spoke then Some(Panel(p.white, false, false)) else None
  }

  /** The effects applied in order from `p`. */
  function Replay(p: Panel, effs: seq<Effect>): Option<Panel>
    decreases |effs|
  {
    if effs == [] then Some(p)
    else
      match Apply(p, effs[0])
      case None => None
      case Some(q) => Replay(q, effs[1..])
  }

  lemma {:induction false} ReplayAppend(p: Panel, a: seq<Effect>, b: seq<Effect>)
    ensures Replay(p, a + b) == match Replay(p, a) case None => None case Some(q) => Replay(q, b)
    decreases |a|
  {
    if a == [] {
      assert a + b == b;
    } else {
      assert (a + b)[0] == a[0] && (a + b)[1..] == a[1..] + b;
      match Apply(p, a[0])
      case None =>
      case Some(q) => ReplayAppend(q, a[1..], b);
    }
  }

  /** The effects of the loop keep the panel discipline from the dark panel
      `main` sets up (lines 200-201), and the white LED is on exactly while
      `activated` holds. */
  lemma {:induction false} RunKeepsPanel(rs: seq<Response>, kb: KnowledgeBase, ratio: Ratio)
    ensures Replay(Panel(false, false, false), Run(rs, kb, ratio).effects)
         == Some(Panel(Run(rs, kb, ratio).activated, false, false))
    decreases |rs|
  {
    if rs != [] {
      var init := rs[..|rs| - 1];
      var p := Run(init, kb, ratio);
      RunKeepsPanel(init, kb, ratio);
      if !p.stopped {
        var o := Step(p.activated, rs[|rs| - 1], kb, ratio);
        ReplayAppend(Panel(false, false, false), p.effects, o.effects);
        if !o.stop && p.activated && FinalTranscript(rs[|rs| - 1]).Some? {
          var answer := Answer(kb, ratio, FinalTranscript(rs[|rs| - 1]).value);
          ReplayAppend(Panel(true, false, false), [Pin17Low], answer);
          AnswerKeepsPanel(answer);
        }
      }
    }
  }

  /** An answer lights the red LED, speaks once and turns it off again. */
  lemma AnswerKeepsPanel(answer: seq<Effect>)
    requires answer == [] || (|answer| == 3 && answer[0] == Pin18High && answer[1].Speak? && answer[2] == Pin18Low)
    ensures Replay(Panel(false, false, false), answer) == Some(Panel(false, false, false))
  {
    if answer != [] {
      var tail := answer[1..];
      assert Replay(Panel(false, false, false), answer) == Replay(Panel(false, true, false), tail);
      assert Replay(Panel(false, true, false), tail) == Replay(Panel(false, true, true), tail[1..]);
      assert tail[1..] == [Pin18Low];
      assert Replay(Panel(false, true, true), [Pin18Low]) == Replay(Panel(false, false, false), []);
    }
  }

  // ---------------------------------------------------------------------
  // The loop as the program runs it

  /** The inner `for question in QUESTIONS_ANSWERS_DICT` loop (lines 181-189). */
  method AnswerQuestion(kb: KnowledgeBase, ratio: Ratio, transcript: string) returns (effects: seq<Effect>)
    ensures effects == Answer(kb, ratio, transcript)
  {
    effects := [];
    var k := 0;
    while k < |kb|
      invariant 0 <= k <= |kb|
      invariant forall j | 0 <= j < k :: ratio(transcript, kb[j].0) < MATCH_THRESHOLD
    {
      var question := kb[k].0;
      if ratio(transcript, question) >= MATCH_THRESHOLD {
        effects := [Pin18High, Speak(AsMap(kb)[question]), Pin18Low];
        assert FirstMatch(kb, ratio, transcript) == Some(k);
        return;
      }
      k := k + 1;
    }
  }

  /** `listening_loop(responses, ...)`: the `for` loop over the responses
      with its `continue`s and its `break`. */
  method ListeningLoop(responses: seq<Response>, kb: KnowledgeBase, ratio: Ratio) returns (r: Loop)
    ensures r == Run(responses, kb, ratio)
  {
    var activated := false;
    var effects: seq<Effect> := [];
    var n := 0;
    while n < |responses|
      invariant 0 <= n <= |responses|
      invariant Run(responses[..n], kb, ratio) == Loop(activated, effects, n, false)
    {
      var response := responses[n];
      assert responses[..n + 1][..n] == responses[..n];
      n := n + 1;
      if response.results == [] {
        continue;
      }
      var result := response.results[0];
      if result.alternatives == [] {
        continue;
      }
      var transcript := result.alternatives[0].transcript;
      if !result.isFinal {
        continue;
      }
      if HasExitWord(transcript) {
        assert responses == responses[..n] + responses[n..];
        RunAfterStop(responses[..n], responses[n..], kb, ratio);
        return Loop(activated, effects, n, true);
      }
      if !activated && Contains(Lower(transcript), ACTIVATION_WORD) {
        activated := true;
        effects := effects + [Pin17High];
      } else if activated {
        effects := effects + [Pin17Low];
        var answer := AnswerQuestion(kb, ratio, transcript);
        effects := effects + answer;
        activated := false;
      }
    }
    assert responses[..n] == responses;
    r := Loop(activated, effects, n, false);
  }

  // ---------------------------------------------------------------------
  // Examples

  /** A final result with one alternative. */
  function Said(t: string): Response
  {
    Response([RecognitionResult([Alternative(t)], true)])
  }

  /** The exit words match case-insensitively at word boundaries only. */
  lemma ExitWordExamples()
    ensures HasExitWord("Please EXIT.") && HasExitWord("quit")
    ensures !HasExitWord("exits") && !HasExitWord("Quito")
  {
    assert ExitWordAt("Please EXIT.", 7);
    assert ExitWordAt("quit", 0);
  }

  /** A final result with an empty transcript is not skipped: while
      activated it turns the white LED off, is matched against the table and
      ends in idle; while idle it changes nothing. */
  lemma EmptyTranscript(kb: KnowledgeBase, ratio: Ratio)
    ensures Step(true, Said(""), kb, ratio) == Outcome(false, [Pin17Low] + Answer(kb, ratio, ""), false)
    ensures Step(false, Said(""), kb, ratio) == Outcome(false, [], false)
  {
    assert !HasExitWord("");
    assert !Contains(Lower(""), ACTIVATION_WORD);
  }

  /** The exit check comes first: an utterance naming the speaker and saying
      "exit" ends the loop without activating. */
  lemma ExitBeforeActivation(kb: KnowledgeBase, ratio: Ratio)
    ensures Step(false, Said("simba exit"), kb, ratio) == Outcome(false, [], true)
  {
    assert ExitWordAt("simba exit", 6);
  }

  /** The utterance that activates is not itself answered, and the activation
      word matches in any case. */
  lemma ActivationOnly(kb: KnowledgeBase, ratio: Ratio)
    ensures Step(false, Said("Hi Simba"), kb, ratio) == Outcome(true, [Pin17High], false)
  {
    assert !HasExitWord("Hi Simba");
    assert Lower("Hi Simba") == "hi simba";
    assert OccursAt("hi simba", ACTIVATION_WORD, 3);
  }

  /** A score of exactly 70 is a match; the first matching question wins even
      when a later one scores higher; a score of 69 everywhere gets no answer. */
  lemma ThresholdExamples()
    ensures Answer([("q1", "a1"), ("q2", "a2")], (t, q) => if q == "q1" then 70 else 100, "t")
         == [Pin18High, Speak("a1"), Pin18Low]
    ensures Answer([("q1", "a1"), ("q2", "a2")], (t, q) => 69, "t") == []
  {
  }

  /** The knowledge base and score of `SessionExample`. */
  const ExampleKb: KnowledgeBase := [("hours", "nine to five")]
  const ExampleRatio: Ratio := (t, q) => if t == q then 100 else 0

  /** While activated, the question asked is answered and the loop returns to idle. */
  lemma AnsweredExample()
    ensures Step(true, Said("hours"), ExampleKb, ExampleRatio)
         == Outcome(false, [Pin17Low, Pin18High, Speak("nine to five"), Pin18Low], false)
  {
  }

  /** A session: the speaker is named, a question is answered, "quit" ends
      the loop and the last response is never read. */
  lemma SessionExample()
    ensures Run([Said("Hi Simba"), Said("hours"), Said("quit"), Said("Simba")], ExampleKb, ExampleRatio)
         == Loop(false, [Pin17High, Pin17Low, Pin18High, Speak("nine to five"), Pin18Low], 3, true)
  {
    var rs := [Said("Hi Simba"), Said("hours"), Said("quit"), Said("Simba")];
    var e1 := [Pin17High];
    var e2 := e1 + [Pin17Low, Pin18High, Speak("nine to five"), Pin18Low];
    ActivationOnly(ExampleKb, ExampleRatio);
    AnsweredExample();
    assert ExitWordAt("quit", 0);
    assert Step(false, Said("quit"), ExampleKb, ExampleRatio) == Outcome(false, [], true);
    assert rs[..1][..0] == [];
    assert Run(rs[..1], ExampleKb, ExampleRatio) == Loop(true, e1, 1, false);
    assert rs[..2][..1] == rs[..1];
    assert Run(rs[..2], ExampleKb, ExampleRatio) == Loop(false, e2, 2, false);
    assert rs[..3][..2] == rs[..2];
    assert Run(rs[..3], ExampleKb, ExampleRatio) == Loop(false, e2, 3, true);
    assert rs[..3] == rs[..|rs| - 1];
  }
}
