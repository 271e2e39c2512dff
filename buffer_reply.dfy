/** The offline responder of the buffer-memory script: it reads the whole conversation as
    one text ("HUMAN: ..." and "AI: ..." lines), finds the user's name in it, and answers a
    name question, a request to be reminded, or anything else. */
module BufferReply {
  import opened Text
  import opened Patterns

  // ---------------------------------------------------------------------------
  // Finding the name
  // ---------------------------------------------------------------------------

  /** `extract_name_from_history`: the stripped name of the first "my name is" match
      (white space of any length between the words); failing that, of the first "I'm" or
      "I am" match; failing both, no name. */
  function ExtractNameFromHistory(history: string): (name: Option<string>)
    ensures name.Some? ==> IsNameValue(name.value)
  {
    match Search(MyNameIsSpaced, history, 0)
    case Some(h) =>
      NameCaptureIsName(MyNameIsSpaced, history, h);
      Some(Strip(Captured(history, h)))
    case None =>
      match Search(IAm, history, 0)
      case Some(h) =>
        NameCaptureIsName(IAm, history, h);
        Some(Strip(Captured(history, h)))
      case None => None
  }

  /** No name is found exactly when neither pattern matches anywhere. */
  lemma NoNameIffNoMatch(history: string)
    ensures ExtractNameFromHistory(history).None? <==>
      forall j :: 0 <= j <= |history| ==> MatchAt(MyNameIsSpaced, history, j).None? && MatchAt(IAm, history, j).None?
  {
    var _ := SearchIsFirstMatch(MyNameIsSpaced, history, 0);
    var _ := SearchIsFirstMatch(IAm, history, 0);
  }

  /** A "my name is" statement anywhere wins over every "I'm" / "I am", even one that comes
      earlier: the name is the capture at the first position where "my name is" matches. */
  lemma MyNameIsWins(history: string) returns (i: nat)
    requires exists j :: 0 <= j <= |history| && MatchAt(MyNameIsSpaced, history, j).Some?
    ensures i <= |history| && MatchAt(MyNameIsSpaced, history, i).Some?
    ensures forall j :: 0 <= j < i ==> MatchAt(MyNameIsSpaced, history, j).None?
    ensures ExtractNameFromHistory(history) == Some(Strip(Captured(history, MatchAt(MyNameIsSpaced, history, i).value)))
  {
    i := SearchIsFirstMatch(MyNameIsSpaced, history, 0);
  }

  /** Without any "my name is", the name comes from the first "I'm" / "I am" match. */
  lemma IAmFallback(history: string) returns (i: nat)
    requires forall j :: 0 <= j <= |history| ==> MatchAt(MyNameIsSpaced, history, j).None?
    requires exists j :: 0 <= j <= |history| && MatchAt(IAm, history, j).Some?
    ensures i <= |history| && MatchAt(IAm, history, i).Some?
    ensures forall j :: 0 <= j < i ==> MatchAt(IAm, history, j).None?
    ensures ExtractNameFromHistory(history) == Some(Strip(Captured(history, MatchAt(IAm, history, i).value)))
  {
    var _ := SearchIsFirstMatch(MyNameIsSpaced, history, 0);
    i := SearchIsFirstMatch(IAm, history, 0);
  }

  /** The name run `[A-Za-z\s]+` takes white space of every kind, line breaks included, so
      in a context of "HUMAN: ..." and "AI: ..." lines a name at the end of a line runs on
      into the next line's tag. */
  lemma NameRunsIntoNextLine(context: string)
    requires context == "my name is " + "Vikas\nAI" + ": Hi"
    ensures ExtractNameFromHistory(context) == Some("Vikas\nAI")
  {
    var name := "Vikas\nAI";
    SampleMatch(context, name);
    FirstPositionName(context, Hit(11, 19));
    SampleStripped(name);
  }

  lemma SampleStripped(name: string)
    requires name == "Vikas\nAI"
    ensures Strip(name) == name
  {
    assert name[0] == 'V' && name[7] == 'I';
    StripOfStripped(name);
  }

  /** A "my name is" match at the very start decides the name. */
  lemma FirstPositionName(history: string, h: Hit)
    requires MatchAt(MyNameIsSpaced, history, 0) == Some(h)
    ensures ExtractNameFromHistory(history) == Some(Strip(Captured(history, h)))
  {
    var i := MyNameIsWins(history);
  }

  /** "my name is" matches at the start of the sample and captures the name with the line
      break and the next line's tag. */
  lemma SampleMatch(s: string, name: string)
    requires name == "Vikas\nAI" && s == "my name is " + name + ": Hi"
    ensures MatchAt(MyNameIsSpaced, s, 0) == Some(Hit(11, 19))
    ensures Captured(s, Hit(11, 19)) == name
  {
    SampleWords(s, name);
    SampleNameRun(s, name);
  }

  /** The sample opens with "my", "name" and "is", each followed by one space. */
  lemma SampleWords(s: string, name: string)
    requires name == "Vikas\nAI" && s == "my name is " + name + ": Hi"
    ensures Lower(s[0..2]) == "my" && RunEnd(s, 2, Spaces) == 3
    ensures Lower(s[3..7]) == "name" && RunEnd(s, 7, Spaces) == 8
    ensures Lower(s[8..10]) == "is" && RunEnd(s, 10, Spaces) == 11
  {
    assert s[2] == ' ' && s[3] == 'n' && s[7] == ' ' && s[8] == 'i' && s[10] == ' ' && s[11] == 'V';
    assert s[0..2] == "my" && s[3..7] == "name" && s[8..10] == "is";
  }

  /** The name characters after the first run up to the ':' at position 19. */
  lemma SampleNameRun(s: string, name: string)
    requires name == "Vikas\nAI" && s == "my name is " + name + ": Hi"
    ensures s[11..19] == name && s[11] == 'V' && s[19] == ':'
    ensures RunEnd(s, 12, NameChars) == 19
  {
    assert s[11..19] == name;
    assert s[19] == ':';
    assert forall k :: 12 <= k < 19 ==> IsNameChar(s[k]) by {
      forall k | 12 <= k < 19 ensures IsNameChar(s[k]) {
        assert s[k] == name[k - 11];
      }
    }
  }

  // ---------------------------------------------------------------------------
  // Recalling what the user said
  // ---------------------------------------------------------------------------

  const HumanTag := "HUMAN:"

  /** The lines that start with "HUMAN:", in their order. */
  function HumanLines(lines: seq<string>): (hs: seq<string>)
    ensures |hs| <= |lines|
    ensures forall x :: x in hs <==> x in lines && StartsWith(x, HumanTag)
  {
    if lines == [] then []
    else
      var rest := HumanLines(lines[1..]);
      if StartsWith(lines[0], HumanTag) then [lines[0]] + rest else rest
  }

  /** Filtering a joined list of lines is filtering each part: the kept lines stay in
      their order, each as often as it occurs. */
  lemma {:induction false} HumanLinesAppend(a: seq<string>, b: seq<string>)
    ensures HumanLines(a + b) == HumanLines(a) + HumanLines(b)
  {
    if a == [] {
      assert a + b == b;
    } else {
      assert (a + b)[0] == a[0];
      assert (a + b)[1..] == a[1..] + b;
      HumanLinesAppend(a[1..], b);
    }
  }

  /** `ln.replace("HUMAN:", "").strip()`. */
  function Cleaned(line: string): (c: string)
    ensures IsStripped(c) && |c| <= |line|
  {
    Strip(RemoveAll(line, HumanTag))
  }

  /** A line made of the tag and text in which the tag does not occur again cleans to that
      text, stripped: the tag goes, the rest of the line stays. */
  lemma CleanedTagged(x: string)
    requires !Contains(x, HumanTag)
    ensures Cleaned(HumanTag + x) == Strip(x)
  {
    RemoveAllLeading(HumanTag, x);
    RemoveAllAbsent(x, HumanTag);
  }

  /** A line with two tags loses both, and the text around them stays, stripped. */
  lemma CleanedTwoTags(x: string, y: string)
    requires !Contains(x, HumanTag) && !Contains(y, HumanTag)
    ensures Cleaned(HumanTag + x + HumanTag + y) == Strip(x + y)
  {
    NoTagBeforeTag(x);
    assert HumanTag + x + HumanTag + y == HumanTag + (x + HumanTag + y);
    RemoveAllLeading(HumanTag, x + HumanTag + y);
    RemoveAllSplit(x, HumanTag, y);
    RemoveAllAbsent(y, HumanTag);
  }

  /** "HUMAN" holds no colon, so text without the tag still holds none once "HUMAN" follows. */
  lemma NoTagBeforeTag(x: string)
    requires !Contains(x, HumanTag)
    ensures !Contains(x + HumanTag[..|HumanTag| - 1], HumanTag)
  {
    var t := x + HumanTag[..|HumanTag| - 1];
    forall k | |x| <= k < |t| ensures t[k] != ':' {
      assert t[k] == HumanTag[k - |x|];
    }
    if i: nat :| i <= |t| && OccursAt(t, HumanTag, i) {
      assert t[i + 5] == HumanTag[5] == ':';
      assert x[i..i + |HumanTag|] == t[i..i + |HumanTag|];
      assert OccursAt(x, HumanTag, i);
    }
  }

  /** The cleaned text of each line, in order. */
  function CleanedAll(lines: seq<string>): (cs: seq<string>)
    ensures |cs| == |lines|
    ensures forall k :: 0 <= k < |lines| ==> cs[k] == Cleaned(lines[k])
  {
    seq(|lines|, k requires 0 <= k < |lines| => Cleaned(lines[k]))
  }

  /** The last three "HUMAN:" lines of the context (fewer when there are fewer). */
  function RecalledLines(context: string): (rs: seq<string>)
    ensures var hs := HumanLines(SplitLines(context));
      |rs| == Min(3, |hs|) && IsSuffix(rs, hs)
  {
    PySliceFrom(HumanLines(SplitLines(context)), -3)
  }

  /** What the reminder reply repeats: the recalled lines, cleaned, joined by " | ". */
  function Recollection(context: string): string {
    JoinCleaned(RecalledLines(context))
  }

  /** Lines, cleaned and joined by " | ": nothing, the one cleaned line, or text that opens
      with the first cleaned line and closes with the last, each set off by " | ". */
  function JoinCleaned(rs: seq<string>): (r: string)
    ensures rs == [] ==> r == ""
    ensures |rs| == 1 ==> r == Cleaned(rs[0])
    ensures |rs| == 2 ==> r == Cleaned(rs[0]) + " | " + Cleaned(rs[1])
    ensures |rs| == 3 ==> r == Cleaned(rs[0]) + " | " + Cleaned(rs[1]) + " | " + Cleaned(rs[2])
    ensures |rs| >= 2 ==> StartsWith(r, Cleaned(rs[0]) + " | ")
    ensures |rs| >= 2 ==> EndsWith(r, " | " + Cleaned(rs[|rs| - 1]))
  {
    if rs != [] then
      CleanedAllEnds(rs);
      JoinedCleaned(rs, CleanedAll(rs));
      Join(CleanedAll(rs), " | ")
    else
      Join(CleanedAll(rs), " | ")
  }

  /** The first and last cleaned lines, and the middle one of three. */
  lemma CleanedAllEnds(rs: seq<string>)
    requires rs != []
    ensures |CleanedAll(rs)| == |rs|
    ensures CleanedAll(rs)[0] == Cleaned(rs[0])
    ensures CleanedAll(rs)[|rs| - 1] == Cleaned(rs[|rs| - 1])
    ensures |rs| == 3 ==> CleanedAll(rs)[1] == Cleaned(rs[1])
  {
  }

  /** A join by " | " of two or more parts opens with the first and closes with the last. */
  lemma JoinedEnds(cs: seq<string>, first: string, last: string)
    requires |cs| >= 2 && cs[0] == first && cs[|cs| - 1] == last
    ensures StartsWith(Join(cs, " | "), first + " | ")
    ensures EndsWith(Join(cs, " | "), " | " + last)
  {
    JoinEnds(cs, " | ");
  }

  /** A join by " | " of parts known only by their number, their ends and, for three, their
      middle: the contract of JoinCleaned, stated over plain values. */
  lemma JoinedCleaned(rs: seq<string>, cs: seq<string>)
    requires |cs| == |rs|
    requires rs != [] ==> cs[0] == Cleaned(rs[0]) && cs[|rs| - 1] == Cleaned(rs[|rs| - 1])
    requires |rs| == 3 ==> cs[1] == Cleaned(rs[1])
    ensures rs == [] ==> Join(cs, " | ") == ""
    ensures |rs| == 1 ==> Join(cs, " | ") == Cleaned(rs[0])
    ensures |rs| == 2 ==> Join(cs, " | ") == Cleaned(rs[0]) + " | " + Cleaned(rs[1])
    ensures |rs| == 3 ==> Join(cs, " | ") == Cleaned(rs[0]) + " | " + Cleaned(rs[1]) + " | " + Cleaned(rs[2])
    ensures |rs| >= 2 ==> StartsWith(Join(cs, " | "), Cleaned(rs[0]) + " | ")
    ensures |rs| >= 2 ==> EndsWith(Join(cs, " | "), " | " + Cleaned(rs[|rs| - 1]))
  {
    if |rs| >= 2 {
      JoinedEnds(cs, Cleaned(rs[0]), Cleaned(rs[|rs| - 1]));
      JoinShort(cs, " | ");
    }
  }

  /** The recollection is empty exactly when no line is recalled, or a single one whose
      cleaned text is empty; with two or more recalled lines the separators alone make it
      nonempty. */
  lemma RecollectionEmpty(context: string)
    ensures Recollection(context) == "" <==>
      RecalledLines(context) == [] || (|RecalledLines(context)| == 1 && Cleaned(RecalledLines(context)[0]) == "")
  {
    var rs := RecalledLines(context);
    JoinEmpty(CleanedAll(rs), " | ");
  }

  /** Text without a single line break yields one recalled line at most: itself, if it is
      a "HUMAN:" line. */
  lemma SingleLineContext(context: string)
    requires context != [] && forall k :: 0 <= k < |context| ==> !IsLineBreak(context[k])
    ensures RecalledLines(context) == if StartsWith(context, HumanTag) then [context] else []
  {
    assert FirstBreak(context, 0) == |context|;
    assert SplitLines(context) == [context];
  }

  // ---------------------------------------------------------------------------
  // The reply
  // ---------------------------------------------------------------------------

  /** The message asks for the user's name. */
  predicate AsksName(lowered: string) {
    Contains(lowered, "what's my name") || Contains(lowered, "what is my name") || Contains(lowered, "who am i")
  }

  /** The message asks to be reminded. */
  predicate AsksReminder(lowered: string) {
    Contains(lowered, "remind me what i said earlier") || Contains(lowered, "remind me")
  }

  const NameHeading := "Your name is "

  const NoNameReply := "I don't see your name yet. " + "Tell me: 'My name is <your name>'."

  const RecallHeading := "Recently you said: "

  const NoRecollection := "(no prior messages)"

  const HintHeading := "I can see our previous chat " + "in context."

  const NameHint := " I remember your name is "

  const QuoteHeading := " You said: '"

  /** Python's `if name:`: a name was found and it is not the empty string. */
  predicate Known(name: Option<string>) {
    name.Some? && name.value != ""
  }

  /** The catch-all reply: a hint that the context is visible, the name when one is known,
      and the first 140 characters of the message in quotes. */
  function DefaultReply(name: Option<string>, userMsg: string): (r: string)
    ensures Known(name) ==> StartsWith(r, HintHeading + NameHint + name.value + ".")
    ensures !Known(name) ==> StartsWith(r, HintHeading + QuoteHeading)
    ensures EndsWith(r, QuoteHeading + PyPrefix(userMsg, 140) + "'")
    ensures |r| == |HintHeading| + (if Known(name) then |NameHint| + |name.value| + 1 else 0) +
      |QuoteHeading| + |PyPrefix(userMsg, 140)| + 1
  {
    var hint := if Known(name) then HintHeading + NameHint + name.value + "." else HintHeading;
    var quote := QuoteHeading + PyPrefix(userMsg, 140) + "'";
    StartsWithConcat(hint, quote);
    EndsWithConcat(hint, quote);
    if !Known(name) then
      assert hint + quote == HintHeading + QuoteHeading + (PyPrefix(userMsg, 140) + "'");
      StartsWithConcat(HintHeading + QuoteHeading, PyPrefix(userMsg, 140) + "'");
      hint + quote
    else
      hint + quote
  }

  /** `fake_llm_reply`: a name question is answered first, then a reminder request, then
      anything else. Every kind of reply opens differently, so each rule holds both ways.
      A name question is answered with the name found in the context, and the catch-all
      reply repeats it. */
  function FakeReply(context: string, userMsg: string): (r: string)
    ensures var l := Lower(userMsg);
      var name := ExtractNameFromHistory(context);
      (StartsWith(r, NameHeading) <==> AsksName(l) && name.Some?) &&
      (r == NoNameReply <==> AsksName(l) && name.None?) &&
      (StartsWith(r, RecallHeading) <==> !AsksName(l) && AsksReminder(l)) &&
      (StartsWith(r, HintHeading) <==> !AsksName(l) && !AsksReminder(l)) &&
      (AsksName(l) && name.Some? ==> r == NameHeading + name.value + ".") &&
      (!AsksName(l) && !AsksReminder(l) && name.Some? ==> StartsWith(r, HintHeading + NameHint + name.value + ".")) &&
      (!AsksName(l) && !AsksReminder(l) ==> r == DefaultReply(name, userMsg))
  {
    Answer(ExtractNameFromHistory(context), context, userMsg)
  }

  /** The reply once the name has been looked up in the context. */
  function Answer(name: Option<string>, context: string, userMsg: string): (r: string)
    ensures var l := Lower(userMsg);
      (StartsWith(r, NameHeading) <==> AsksName(l) && Known(name)) &&
      (r == NoNameReply <==> AsksName(l) && !Known(name)) &&
      (StartsWith(r, RecallHeading) <==> !AsksName(l) && AsksReminder(l)) &&
      (StartsWith(r, HintHeading) <==> !AsksName(l) && !AsksReminder(l)) &&
      (AsksName(l) && Known(name) ==> r == NameHeading + name.value + ".") &&
      (!AsksName(l) && !AsksReminder(l) && Known(name) ==> StartsWith(r, HintHeading + NameHint + name.value + ".")) &&
      (!AsksName(l) && !AsksReminder(l) ==> r == DefaultReply(name, userMsg))
  {
    var l := Lower(userMsg);
    Openings();
    if AsksName(l) then
      if Known(name) then
        var r := NameHeading + name.value + ".";
        assert r == NameHeading + (name.value + ".");
        StartsWithConcat(NameHeading, name.value + ".");
        Excludes(r, NameHeading);
        r
      else
        assert StartsWith(NoNameReply, NoNameReply);
        Excludes(NoNameReply, NoNameReply);
        NoNameReply
    else if AsksReminder(l) then
      var last := Recollection(context);
      var r := RecallHeading + (if last == "" then NoRecollection else last);
      StartsWithConcat(RecallHeading, if last == "" then NoRecollection else last);
      Excludes(r, RecallHeading);
      r
    else
      var r := DefaultReply(name, userMsg);
      HintOpening(r, name, userMsg);
      Excludes(r, HintHeading);
      r
  }

  /** Both forms of the catch-all reply open with the hint heading. */
  lemma HintOpening(r: string, name: Option<string>, userMsg: string)
    requires r == DefaultReply(name, userMsg)
    ensures StartsWith(r, HintHeading)
  {
    if Known(name) {
      StartsStill(r, HintHeading, NameHint + name.value + ".");
    } else {
      StartsStill(r, HintHeading, QuoteHeading);
    }
  }

  /** The first characters that tell the four openings apart. */
  lemma Openings()
    ensures |NameHeading| > 2 && NameHeading[0] == 'Y'
    ensures |NoNameReply| > 2 && NoNameReply[0] == 'I' && NoNameReply[2] == 'd'
    ensures |RecallHeading| > 2 && RecallHeading[0] == 'R'
    ensures |HintHeading| > 2 && HintHeading[0] == 'I' && HintHeading[2] == 'c'
  {
    assert NameHeading == ['Y'] + NameHeading[1..];
    assert NoNameReply[..3] == "I d";
    assert RecallHeading == ['R'] + RecallHeading[1..];
    assert HintHeading[..3] == "I c";
  }

  /** A reply that starts with one of the four openings starts with none of the others and
      is the bare no-name reply only when that is its opening. */
  lemma Excludes(r: string, opening: string)
    requires opening in {NameHeading, NoNameReply, RecallHeading, HintHeading}
    requires StartsWith(r, opening)
    ensures StartsWith(r, NameHeading) <==> opening == NameHeading
    ensures r == NoNameReply ==> opening == NoNameReply
    ensures StartsWith(r, RecallHeading) <==> opening == RecallHeading
    ensures StartsWith(r, HintHeading) <==> opening == HintHeading
  {
    if opening != NameHeading { Distinct(r, opening, NameHeading); }
    if opening != NoNameReply {
      Distinct(r, opening, NoNameReply);
      assert r != NoNameReply by { if r == NoNameReply { assert StartsWith(r, NoNameReply); } }
    }
    if opening != RecallHeading { Distinct(r, opening, RecallHeading); }
    if opening != HintHeading { Distinct(r, opening, HintHeading); }
  }

  lemma Distinct(r: string, a: string, b: string)
    requires a in {NameHeading, NoNameReply, RecallHeading, HintHeading}
    requires b in {NameHeading, NoNameReply, RecallHeading, HintHeading}
    requires a != b && StartsWith(r, a)
    ensures !StartsWith(r, b)
  {
    Openings();
    if a[0] != b[0] {
      PrefixesExclude(r, a, b, 0);
    } else {
      PrefixesExclude(r, a, b, 2);
    }
  }

  /** The reminder reply repeats the recollection, or says there is nothing to repeat
      exactly when the recollection is empty. */
  lemma ReminderReply(context: string, userMsg: string)
    requires !AsksName(Lower(userMsg)) && AsksReminder(Lower(userMsg))
    ensures Recollection(context) == "" ==> FakeReply(context, userMsg) == RecallHeading + NoRecollection
    ensures Recollection(context) != "" ==> FakeReply(context, userMsg) == RecallHeading + Recollection(context)
  {
  }

  /** The catch-all reply says "I remember your name is X." with the name X exactly when a
      name is known, and otherwise goes straight from the hint to the quote. */
  lemma DefaultReplyHint(name: Option<string>, userMsg: string)
    ensures StartsWith(DefaultReply(name, userMsg), HintHeading + NameHint) <==> Known(name)
    ensures Known(name) ==> StartsWith(DefaultReply(name, userMsg), HintHeading + NameHint + name.value + ".")
  {
    var r := DefaultReply(name, userMsg);
    if Known(name) {
      assert HintHeading + NameHint + name.value + "." == HintHeading + NameHint + (name.value + ".");
      StartsStill(r, HintHeading + NameHint, name.value + ".");
    } else {
      assert QuoteHeading[1] == 'Y' && NameHint[1] == 'I' by {
        assert QuoteHeading[..2] == " Y";
        assert NameHint[..2] == " I";
      }
      var tail := r[|HintHeading|..];
      assert r == HintHeading + tail;
      CommonPrefix(HintHeading, tail, QuoteHeading);
      PrefixesExclude(tail, QuoteHeading, NameHint, 1);
      CommonPrefix(HintHeading, tail, NameHint);
    }
  }
}
