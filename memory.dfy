/** The offline conversation memory: a turn buffer, a rolling summary, a store of facts
    about the user found by fixed patterns, the persona card rendered from those facts,
    and the rule-based responder that reads all three. */
module Memory {
  import opened Text
  import opened Ordering
  import opened Patterns
  import opened TextWrap

  /** One message of the conversation; the role is "user" or "assistant" in practice, but
      any string is accepted. */
  datatype Turn = Turn(role: string, text: string)

  /** The facts stored under one entity key. A missing "likes" or "tools" entry is the empty
      set here: the store only creates those entries while adding at least one item. */
  datatype Facts = Facts(name: Option<string>, likes: set<string>, tools: set<string>)

  const UserKey := "user"

  const NoFacts := Facts(None, {}, {})

  /** `entities.get("user", {})`. */
  function UserFacts(entities: map<string, Facts>): Facts {
    if UserKey in entities then entities[UserKey] else NoFacts
  }

  // ---------------------------------------------------------------------------
  // Entity extraction
  // ---------------------------------------------------------------------------

  /** The stripped capture of the first "my name is" match, if any. */
  function NameFound(text: string): (name: Option<string>)
    ensures name.Some? ==> IsNameValue(name.value)
  {
    match Search(MyNameIs, text, 0)
    case Some(h) =>
      NameCaptureIsName(MyNameIs, text, h);
      Some(Strip(Captured(text, h)))
    case None => None
  }

  /** A name is found exactly when "my name is" matches somewhere, and it is the stripped
      capture of the first such match. */
  lemma NameFoundIsFirstMatch(text: string) returns (i: nat)
    ensures NameFound(text).None? <==> forall j :: 0 <= j <= |text| ==> MatchAt(MyNameIs, text, j).None?
    ensures NameFound(text).Some? ==>
      i <= |text| && MatchAt(MyNameIs, text, i).Some? &&
      (forall j :: 0 <= j < i ==> MatchAt(MyNameIs, text, j).None?) &&
      NameFound(text).value == Strip(Captured(text, MatchAt(MyNameIs, text, i).value))
  {
    i := SearchIsFirstMatch(MyNameIs, text, 0);
  }

  /** The stripped captures of every match of a likes or tools pattern, in text order. */
  function Items(p: Pattern, text: string): (items: seq<string>)
    ensures |items| == |FindAll(p, text, 0)|
    ensures forall k :: 0 <= k < |items| ==> items[k] == Strip(Captured(text, FindAll(p, text, 0)[k]))
  {
    var hits := FindAll(p, text, 0);
    seq(|hits|, k requires 0 <= k < |hits| => Strip(Captured(text, hits[k])))
  }

  function ToSet(items: seq<string>): set<string> {
    set x | x in items
  }

  /** The store after recording a found name (when there is one) and found likes and tools:
      the name overwrites the user's name, and the items are added to their sets; an
      entry is only touched when something was found for it. */
  function Recorded(entities: map<string, Facts>, name: Option<string>, likes: seq<string>, tools: seq<string>)
    : (e: map<string, Facts>)
    ensures forall k :: k != UserKey ==> (k in e <==> k in entities) && (k in e ==> e[k] == entities[k])
    ensures UserFacts(e).name == (if name.Some? then name else UserFacts(entities).name)
    ensures UserFacts(e).likes == UserFacts(entities).likes + ToSet(likes)
    ensures UserFacts(e).tools == UserFacts(entities).tools + ToSet(tools)
  {
    var e1 := if name.Some? then entities[UserKey := UserFacts(entities).(name := name)] else entities;
    var e2 := if likes != [] then e1[UserKey := UserFacts(e1).(likes := UserFacts(e1).likes + ToSet(likes))] else e1;
    if tools != [] then e2[UserKey := UserFacts(e2).(tools := UserFacts(e2).tools + ToSet(tools))] else e2
  }

  /** The store after one extraction pass over `text`: a name match overwrites the user's
      name, and likes and tools matches are added to their sets. */
  function ExtractFacts(entities: map<string, Facts>, text: string): (e: map<string, Facts>)
    ensures forall k :: k != UserKey ==> (k in e <==> k in entities) && (k in e ==> e[k] == entities[k])
    ensures UserFacts(e).name == (if NameFound(text).Some? then NameFound(text) else UserFacts(entities).name)
    ensures UserFacts(e).likes == UserFacts(entities).likes + ToSet(Items(Likes, text))
    ensures UserFacts(e).tools == UserFacts(entities).tools + ToSet(Items(Tools, text))
  {
    Recorded(entities, NameFound(text), Items(Likes, text), Items(Tools, text))
  }

  /** A stored like or tool: item characters only, not starting or ending with a space. */
  predicate IsItemValue(x: string) {
    IsStripped(x) && forall k :: 0 <= k < |x| ==> IsItemChar(x[k])
  }

  predicate FactsWellFormed(f: Facts) {
    (f.name.Some? ==> IsNameValue(f.name.value)) &&
    (forall x :: x in f.likes ==> IsItemValue(x)) &&
    (forall x :: x in f.tools ==> IsItemValue(x))
  }

  predicate EntitiesWellFormed(entities: map<string, Facts>) {
    forall k :: k in entities ==> FactsWellFormed(entities[k])
  }

  /** A stripped item capture is an item value. */
  lemma ItemCaptureIsItem(p: Pattern, s: string, h: Hit)
    requires !IsNamePattern(p) && h.start < h.end <= |s| && CaptureShape(p, s, h)
    ensures IsItemValue(Strip(Captured(s, h)))
  {
    var _ := StripSpec(Captured(s, h));
    StripChars(Captured(s, h), ch => IsItemChar(ch));
  }

  lemma ItemsAreItemValues(p: Pattern, text: string)
    requires !IsNamePattern(p)
    ensures forall x :: x in Items(p, text) ==> IsItemValue(x)
  {
    var hits := FindAll(p, text, 0);
    forall k | 0 <= k < |hits| ensures IsItemValue(Items(p, text)[k]) {
      assert hits[k] in hits;
      ItemCaptureIsItem(p, text, hits[k]);
    }
  }

  /** Extraction keeps the store well formed. */
  lemma ExtractKeepsWellFormed(entities: map<string, Facts>, text: string)
    requires EntitiesWellFormed(entities)
    ensures EntitiesWellFormed(ExtractFacts(entities, text))
  {
    var e := ExtractFacts(entities, text);
    ItemsAreItemValues(Likes, text);
    ItemsAreItemValues(Tools, text);
    var m := Search(MyNameIs, text, 0);
    if m.Some? {
      NameCaptureIsName(MyNameIs, text, m.value);
    }
    assert FactsWellFormed(UserFacts(entities));
    assert FactsWellFormed(UserFacts(e));
    forall k | k in e ensures FactsWellFormed(e[k]) {
      if k == UserKey {
        assert e[k] == UserFacts(e);
      }
    }
  }

  /** Text on which no pattern matches leaves the store exactly as it was. */
  lemma ExtractNoMatch(entities: map<string, Facts>, text: string)
    requires forall i :: 0 <= i <= |text| ==>
      MatchAt(MyNameIs, text, i).None? && MatchAt(Likes, text, i).None? && MatchAt(Tools, text, i).None?
    ensures ExtractFacts(entities, text) == entities
  {
    var _ := SearchIsFirstMatch(MyNameIs, text, 0);
    FindAllEmpty(Likes, text, 0);
    FindAllEmpty(Tools, text, 0);
    assert Items(Likes, text) == [] && Items(Tools, text) == [];
  }

  /** Extracting twice from the same text is the same as extracting once: the name is
      overwritten with the same value and the set unions add nothing new. */
  lemma ExtractIdempotent(entities: map<string, Facts>, text: string)
    ensures ExtractFacts(ExtractFacts(entities, text), text) == ExtractFacts(entities, text)
  {
    RecordedIdempotent(entities, NameFound(text), Items(Likes, text), Items(Tools, text));
  }

  /** Recording the same findings twice is the same as recording them once. */
  lemma RecordedIdempotent(entities: map<string, Facts>, name: Option<string>, likes: seq<string>, tools: seq<string>)
    ensures Recorded(Recorded(entities, name, likes, tools), name, likes, tools) == Recorded(entities, name, likes, tools)
  {
    var once := Recorded(entities, name, likes, tools);
    var twice := Recorded(once, name, likes, tools);
    assert UserFacts(twice) == UserFacts(once);
    if UserKey in once {
      assert UserKey in twice;
    } else {
      assert UserKey !in twice;
    }
    assert twice.Keys == once.Keys;
  }

  /** Likes and tools only grow; a name match replaces whatever name was stored. */
  lemma ExtractOnlyGrows(entities: map<string, Facts>, text: string)
    ensures UserFacts(entities).likes <= UserFacts(ExtractFacts(entities, text)).likes
    ensures UserFacts(entities).tools <= UserFacts(ExtractFacts(entities, text)).tools
    ensures NameFound(text).None? ==> UserFacts(ExtractFacts(entities, text)).name == UserFacts(entities).name
  {
  }

  /** The likes capture is greedy: after "I like " it takes everything that follows as long
      as every character may belong to an item, including any "and I use ..." after it. */
  lemma LikesCaptureIsGreedy(x: string)
    requires x != [] && IsAsciiLetter(x[0]) && forall k :: 0 <= k < |x| ==> IsItemChar(x[k])
    ensures Items(Likes, "I like " + x) == [Strip(x)]
  {
    var s := "I like " + x;
    var n := |s|;
    LikesMatchAtStart(x);
    assert MatchAt(Likes, s, n).None?;
    assert FindAll(Likes, s, n) == [];
    assert FindAll(Likes, s, 0) == [Hit(7, n)];
    assert Captured(s, Hit(7, n)) == x;
    var items := Items(Likes, s);
    assert |items| == 1 && items[0] == Strip(x);
  }

  /** "I like " followed by item characters matches at the start, capturing all of them. */
  lemma LikesMatchAtStart(x: string)
    requires x != [] && IsAsciiLetter(x[0]) && forall k :: 0 <= k < |x| ==> IsItemChar(x[k])
    ensures MatchAt(Likes, "I like " + x, 0) == Some(Hit(7, |x| + 7))
  {
    var s := "I like " + x;
    var n := |s|;
    assert s[..7] == "I like ";
    assert s[0..2] == "I ";
    assert Lower("I ")[0] == 'i' && Lower("I ")[1] == ' ';
    assert Lower("I ") == "i ";
    assert s[2..6] == "like";
    assert Lower("like") == "like";
    assert VerbEnd(s, 2, ["like", "love", "prefer"]) == Some(6);
    assert s[7..] == x;
    assert s[6] == ' ' && IsSpace(s[6]) && !IsSpace(s[7]);
    assert RunEnd(s, 7, Spaces) == 7;
    assert RunEnd(s, 6, Spaces) == 7;
    assert LastItemStart(s, 6, 7) == Some(7);
    assert forall k :: 7 <= k < n ==> In(s[k], ItemChars) by {
      forall k | 7 <= k < n ensures In(s[k], ItemChars) {
        assert s[k] == x[k - 7];
      }
    }
    assert RunEnd(s, 7, ItemChars) == n;
  }

  // ---------------------------------------------------------------------------
  // Persona card
  // ---------------------------------------------------------------------------

  const NoItems := "—"

  /** How the card shows a likes or tools set: "—" when empty, otherwise the items in
      ascending order separated by ", ". */
  function ShownItems(items: set<string>): string {
    if items == {} then NoItems else Join(SortedItems(items), ", ")
  }

  function ShownName(f: Facts): string {
    f.name.GetOr("User")
  }

  /** `persona_card`: the user's name (or "User"), likes and tools on one line. */
  function PersonaCard(entities: map<string, Facts>): (card: string)
    ensures var f := UserFacts(entities);
      StartsWith(card, CardOpening + ShownName(f) + LikesLabel + ShownItems(f.likes)) &&
      EndsWith(card, ToolsLabel + ShownItems(f.tools)) &&
      |card| == |CardOpening| + |ShownName(f)| + |LikesLabel| + |ShownItems(f.likes)| +
        |ToolsLabel| + |ShownItems(f.tools)|
  {
    var f := UserFacts(entities);
    var head := CardOpening + ShownName(f) + LikesLabel + ShownItems(f.likes);
    var tail := ToolsLabel + ShownItems(f.tools);
    StartsWithConcat(head, tail);
    EndsWithConcat(head, tail);
    head + tail
  }

  const CardOpening := "Persona → name: "

  const LikesLabel := " | likes: "

  const ToolsLabel := " | tools: "

  /** With no stored name the card calls the user "User"; otherwise it shows the name. */
  lemma PersonaCardName(entities: map<string, Facts>)
    ensures UserFacts(entities).name.None? ==> StartsWith(PersonaCard(entities), CardOpening + "User" + LikesLabel)
    ensures UserFacts(entities).name.Some? ==>
      StartsWith(PersonaCard(entities), CardOpening + UserFacts(entities).name.value + LikesLabel)
  {
    var f := UserFacts(entities);
    StartsStill(PersonaCard(entities), CardOpening + ShownName(f) + LikesLabel, ShownItems(f.likes));
  }

  /** The card shows "—" for a set exactly when the set is empty, as long as "—" is not
      itself an item (no extracted item can be). */
  lemma ShownItemsDashIffEmpty(items: set<string>)
    requires NoItems !in items
    ensures ShownItems(items) == NoItems <==> items == {}
  {
    if items != {} {
      var sorted := SortedItems(items);
      if |sorted| == 1 {
        assert sorted[0] in items;
      } else {
        JoinLength(sorted, ", ");
      }
    }
  }

  /** A nonempty set is shown as its items in ascending order, each exactly once. */
  lemma ShownItemsSorted(items: set<string>)
    requires items != {}
    ensures ShownItems(items) == Join(SortedItems(items), ", ")
    ensures StrictlySorted(SortedItems(items)) && ToSet(SortedItems(items)) == items
  {
  }

  /** In a well-formed store the likes and tools are shown as "—" exactly when empty. */
  lemma PersonaCardDash(entities: map<string, Facts>)
    requires EntitiesWellFormed(entities)
    ensures ShownItems(UserFacts(entities).likes) == NoItems <==> UserFacts(entities).likes == {}
    ensures ShownItems(UserFacts(entities).tools) == NoItems <==> UserFacts(entities).tools == {}
  {
    var f := UserFacts(entities);
    assert FactsWellFormed(f);
    ShownItemsDashIffEmpty(f.likes);
    ShownItemsDashIffEmpty(f.tools);
  }

  // ---------------------------------------------------------------------------
  // Summary
  // ---------------------------------------------------------------------------

  const SummaryTurns := 10

  const Placeholder := " ..."

  /** The placeholder needs three characters once its leading space is dropped. */
  lemma PlaceholderWidth()
    ensures TrimStart(Placeholder) == "..."
  {
    var dots := "...";
    assert Placeholder == [' '] + dots;
    assert IsSpace(' ') && !IsSpace('.');
    assert Placeholder[1..] == dots;
    assert TrimStart(Placeholder) == TrimStart(dots);
    assert TrimStart(dots) == dots;
  }

  /** One summary line: "U: " for the user, "A: " for every other role, then the stripped
      text with its newlines turned into spaces. */
  function Bullet(t: Turn): (b: string)
    ensures StartsWith(b, RoleTag(t.role) + ": ") && EndsWith(b, BulletLine(t.text))
    ensures |b| == |RoleTag(t.role)| + 2 + |BulletLine(t.text)|
  {
    StartsWithConcat(RoleTag(t.role) + ": ", BulletLine(t.text));
    EndsWithConcat(RoleTag(t.role) + ": ", BulletLine(t.text));
    RoleTag(t.role) + ": " + BulletLine(t.text)
  }

  function RoleTag(role: string): string {
    if role == "user" then "U" else "A"
  }

  function BulletLine(text: string): (line: string)
    ensures forall k :: 0 <= k < |line| ==> line[k] != '\n'
  {
    NewlinesToSpaces(Strip(text))
  }

  /** One bullet per turn, in the order of the turns. */
  function Bullets(ts: seq<Turn>): (bs: seq<string>)
    ensures |bs| == |ts|
  {
    if ts == [] then [] else Bullets(ts[..|ts| - 1]) + [Bullet(ts[|ts| - 1])]
  }

  lemma BulletsSnoc(ts: seq<Turn>, i: nat)
    requires i < |ts|
    ensures Bullets(ts[..i + 1]) == Bullets(ts[..i]) + [RoleTag(ts[i].role) + ": " + BulletLine(ts[i].text)]
  {
    assert ts[..i + 1][..i] == ts[..i];
  }

  /** The loop of `update_summary` that renders each of the recent turns as a bullet. */
  method RenderBullets(recent: seq<Turn>) returns (bullets: seq<string>)
    ensures bullets == Bullets(recent)
  {
    bullets := [];
    for i := 0 to |recent|
      invariant bullets == Bullets(recent[..i])
    {
      var who := RoleTag(recent[i].role);
      var line := BulletLine(recent[i].text);
      BulletsSnoc(recent, i);
      bullets := bullets + [who + ": " + line];
    }
    assert recent[..|recent|] == recent;
  }

  /** The text the summary is shortened from: the bullets of the last ten turns joined by " • ". */
  function Digest(turns: seq<Turn>): (d: string)
    ensures d == "" <==> turns == []
  {
    var bs := Bullets(PySliceFrom(turns, -SummaryTurns));
    JoinEmpty(bs, " • ");
    if |bs| == 1 then
      BulletsAt(PySliceFrom(turns, -SummaryTurns));
      Join(bs, " • ")
    else
      Join(bs, " • ")
  }

  /** The k-th bullet renders the k-th turn. */
  lemma {:induction false} BulletsAt(ts: seq<Turn>)
    ensures forall k :: 0 <= k < |ts| ==> Bullets(ts)[k] == Bullet(ts[k])
  {
    if ts != [] {
      var init := ts[..|ts| - 1];
      BulletsAt(init);
      forall k | 0 <= k < |ts| - 1 ensures Bullets(ts)[k] == Bullet(ts[k]) {
        assert init[k] == ts[k];
      }
    }
  }

  /** A bullet is tagged "U" exactly for the role "user", and is a single line. */
  lemma BulletTag(t: Turn)
    ensures StartsWith(Bullet(t), "U: ") <==> t.role == "user"
    ensures !StartsWith(Bullet(t), "U: ") <==> StartsWith(Bullet(t), "A: ")
    ensures forall k :: 0 <= k < |Bullet(t)| ==> Bullet(t)[k] != '\n'
  {
    var head := RoleTag(t.role) + ": ";
    assert Bullet(t) == head + BulletLine(t.text);
    TagShape(head, BulletLine(t.text));
  }

  lemma TagShape(head: string, line: string)
    requires head == "U: " || head == "A: "
    requires forall k :: 0 <= k < |line| ==> line[k] != '\n'
    ensures StartsWith(head + line, "U: ") <==> head == "U: "
    ensures !StartsWith(head + line, "U: ") <==> StartsWith(head + line, "A: ")
    ensures forall k :: 0 <= k < |head + line| ==> (head + line)[k] != '\n'
  {
    StartsWithConcat(head, line);
    if head == "U: " {
      PrefixesExclude(head + line, "U: ", "A: ", 0);
    } else {
      PrefixesExclude(head + line, "A: ", "U: ", 0);
    }
  }

  /** The digest reads only the last ten turns: whatever came before them does not matter. */
  lemma DigestReadsLastTen(older: seq<Turn>, recent: seq<Turn>)
    requires |recent| == SummaryTurns
    ensures Digest(older + recent) == Digest(recent)
  {
    assert PySliceFrom(older + recent, -SummaryTurns) == recent;
    assert PySliceFrom(recent, -SummaryTurns) == recent;
  }

  /** With ten turns or fewer every turn is in the digest, in order. */
  lemma DigestOfFewTurns(turns: seq<Turn>)
    requires |turns| <= SummaryTurns
    ensures Digest(turns) == Join(Bullets(turns), " • ")
  {
    assert PySliceFrom(turns, -SummaryTurns) == turns;
  }

  // ---------------------------------------------------------------------------
  // The memory object
  // ---------------------------------------------------------------------------

  class ConversationMemory {
    var turns: seq<Turn>
    var summary: string
    var entities: map<string, Facts>
    var windowSize: int
    var summaryTargetLen: int

    /** Every stored fact has the shape extraction gives it. */
    ghost predicate Valid()
      reads this
    {
      EntitiesWellFormed(entities)
    }

    constructor (windowSize: int, summaryTargetLen: int)
      ensures Valid()
      ensures turns == [] && summary == "" && entities == map[]
      ensures this.windowSize == windowSize && this.summaryTargetLen == summaryTargetLen
    {
      turns := [];
      summary := "";
      entities := map[];
      this.windowSize := windowSize;
      this.summaryTargetLen := summaryTargetLen;
    }

    /** `add`: appends one turn; the frame leaves the summary, the entities and the settings alone. */
    method Add(role: string, text: string)
      modifies this`turns
      ensures turns == old(turns) + [Turn(role, text)]
    {
      turns := turns + [Turn(role, text)];
    }

    /** `last_window`: `turns[-window_size*2:]`. */
    function LastWindow(): (w: seq<Turn>)
      reads this
      ensures IsSuffix(w, turns)
      ensures windowSize >= 1 ==> |w| == Min(2 * windowSize, |turns|)
      ensures windowSize == 0 ==> w == turns
      ensures windowSize < 0 ==> |w| == |turns| - Min(-2 * windowSize, |turns|)
    {
      PySliceFrom(turns, -windowSize * 2)
    }

    /** `update_summary`: renders the last ten turns and shortens them to the target length.
        A target below 3 makes the shortening raise ValueError (`ok` is false) and the
        summary is left as it was. */
    method UpdateSummary() returns (ok: bool)
      modifies this`summary
      ensures ok <==> summaryTargetLen >= 3
      ensures ok ==> Some(summary) == Shorten(Digest(turns), summaryTargetLen, Placeholder)
      ensures ok ==> |summary| <= summaryTargetLen
      ensures ok && turns == [] ==> summary == ""
      ensures !ok ==> summary == old(summary)
    {
      var bullets := RenderBullets(PySliceFrom(turns, -SummaryTurns));
      PlaceholderWidth();
      var shortened := Shorten(Join(bullets, " • "), summaryTargetLen, Placeholder);
      if shortened.None? {
        return false;
      }
      summary := shortened.value;
      ok := true;
      if turns == [] {
        ShortenEmpty(summaryTargetLen, Placeholder);
      }
    }

    /** `extract_entities`: one extraction pass over `text`, changing only the store. */
    method ExtractEntities(text: string)
      requires Valid()
      modifies this`entities
      ensures Valid()
      ensures entities == ExtractFacts(old(entities), text)
    {
      ExtractKeepsWellFormed(entities, text);
      var nameMatch := Search(MyNameIs, text, 0);
      if nameMatch.Some? {
        var user := UserFacts(entities);
        entities := entities[UserKey := user.(name := Some(Strip(Captured(text, nameMatch.value))))];
      }
      var likes := Items(Likes, text);
      if likes != [] {
        var user := UserFacts(entities);
        entities := entities[UserKey := user.(likes := user.likes + ToSet(likes))];
      }
      var tools := Items(Tools, text);
      if tools != [] {
        var user := UserFacts(entities);
        entities := entities[UserKey := user.(tools := user.tools + ToSet(tools))];
      }
    }
  }

  // ---------------------------------------------------------------------------
  // Context and the offline responder
  // ---------------------------------------------------------------------------

  /** The context dictionary handed to the responder; a missing key is `None`. */
  datatype Context = Context(summary: Option<string>, window: Option<seq<Turn>>, persona: Option<string>)

  /** `build_context`: the summary, the window and the persona card of a memory. */
  function BuildContext(mem: ConversationMemory): (ctx: Context)
    reads mem
    ensures ctx.summary == Some(mem.summary) && ctx.persona == Some(PersonaCard(mem.entities))
    ensures ctx.window == Some(mem.LastWindow()) && IsSuffix(ctx.window.value, mem.turns)
  {
    Context(Some(mem.summary), Some(mem.LastWindow()), Some(PersonaCard(mem.entities)))
  }

  /** The number of turns whose role is "user". */
  function CountUserTurns(ts: seq<Turn>): (n: nat)
    ensures n <= |ts|
    ensures n == |ts| <==> forall k :: 0 <= k < |ts| ==> ts[k].role == "user"
    ensures |ts| == 1 ==> (n == 1 <==> ts[0].role == "user")
  {
    if ts == [] then 0
    else CountUserTurns(ts[..|ts| - 1]) + (if ts[|ts| - 1].role == "user" then 1 else 0)
  }

  /** Counting the user turns of two runs of turns adds their counts. */
  lemma {:induction false} CountUserTurnsAppend(a: seq<Turn>, b: seq<Turn>)
    ensures CountUserTurns(a + b) == CountUserTurns(a) + CountUserTurns(b)
    decreases |b|
  {
    if b != [] {
      var init := b[..|b| - 1];
      CountUserTurnsAppend(a, init);
      assert (a + b)[..|a + b| - 1] == a + init;
      assert (a + b)[|a + b| - 1] == b[|b| - 1];
    } else {
      assert a + b == a;
    }
  }

  const IntroReply := "I'm your local study assistant. " + "You can call me EchoTutor."

  const SummaryHeading := "Here’s the running summary I have:\n"

  const PersonaHeading := "From what I remember: "

  const EchoHeading := "(I see your recent "

  /** The fallback reply: how many user turns the window holds, and the first 140
      characters of the message. */
  function EchoReply(ctx: Context, userMsg: string): (r: string)
    ensures StartsWith(r, EchoHeading + NatToString(CountUserTurns(ctx.window.GetOr([]))) + " message(s).) ")
    ensures EndsWith(r, "You said: '" + PyPrefix(userMsg, 140) + "'. Tell me more so I can help.")
    ensures |r| == |EchoHeading| + |NatToString(CountUserTurns(ctx.window.GetOr([])))| +
      |" message(s).) "| + |"You said: '"| + |PyPrefix(userMsg, 140)| + |"'. Tell me more so I can help."|
  {
    var count := NatToString(CountUserTurns(ctx.window.GetOr([])));
    var r := EchoHeading + EchoTail(ctx, userMsg);
    assert r == (EchoHeading + count + " message(s).) ") + EchoQuote(userMsg);
    StartsWithConcat(EchoHeading + count + " message(s).) ", EchoQuote(userMsg));
    EndsWithConcat(EchoHeading + count + " message(s).) ", EchoQuote(userMsg));
    r
  }

  function EchoTail(ctx: Context, userMsg: string): string {
    NatToString(CountUserTurns(ctx.window.GetOr([]))) + " message(s).) " + EchoQuote(userMsg)
  }

  function EchoQuote(userMsg: string): string {
    "You said: '" + PyPrefix(userMsg, 140) + "'. Tell me more so I can help."
  }

  /** The four kinds of reply open with four different characters. */
  lemma Openings()
    ensures |IntroReply| > 0 && IntroReply[0] == 'I'
    ensures |SummaryHeading| > 0 && SummaryHeading[0] == 'H'
    ensures |PersonaHeading| > 0 && PersonaHeading[0] == 'F'
    ensures |EchoHeading| > 0 && EchoHeading[0] == '('
  {
    assert IntroReply == ['I'] + IntroReply[1..];
    assert SummaryHeading == ['H'] + SummaryHeading[1..];
    assert PersonaHeading == ['F'] + PersonaHeading[1..];
    assert EchoHeading == ['('] + EchoHeading[1..];
  }

  /** A string that starts with a nonempty prefix has that prefix's first character first. */
  lemma OpeningOf(s: string, prefix: string)
    requires prefix != [] && StartsWith(s, prefix)
    ensures s != [] && s[0] == prefix[0]
  {
    assert s[0] == s[..|prefix|][0];
  }

  /** `offline_llm`: canned replies chosen by the first rule whose phrase occurs in the
      lower-cased message. Each kind of reply opens differently, so every rule is stated
      both ways: the reply has that kind exactly when that rule is the first to apply. */
  function OfflineReply(ctx: Context, userMsg: string): (r: string)
    ensures var l := Lower(userMsg);
      (r == IntroReply <==> Contains(l, "your name")) &&
      (StartsWith(r, SummaryHeading) <==> !Contains(l, "your name") && Contains(l, "summary")) &&
      (StartsWith(r, PersonaHeading) <==>
        !Contains(l, "your name") && !Contains(l, "summary") && (Contains(l, "who am i") || Contains(l, "my name"))) &&
      (StartsWith(r, EchoHeading) <==>
        !Contains(l, "your name") && !Contains(l, "summary") && !Contains(l, "who am i") && !Contains(l, "my name")) &&
      (StartsWith(r, SummaryHeading) ==> r == SummaryHeading + ctx.summary.GetOr("(empty)")) &&
      (StartsWith(r, PersonaHeading) ==> r == PersonaHeading + ctx.persona.GetOr("(no persona yet)")) &&
      (StartsWith(r, EchoHeading) ==> r == EchoReply(ctx, userMsg))
  {
    Openings();
    var l := Lower(userMsg);
    if Contains(l, "your name") then
      IntroReply
    else if Contains(l, "summary") then
      var r := SummaryHeading + ctx.summary.GetOr("(empty)");
      StartsWithConcat(SummaryHeading, ctx.summary.GetOr("(empty)"));
      OpeningsExcept(r, SummaryHeading);
      r
    else if Contains(l, "who am i") || Contains(l, "my name") then
      var r := PersonaHeading + ctx.persona.GetOr("(no persona yet)");
      StartsWithConcat(PersonaHeading, ctx.persona.GetOr("(no persona yet)"));
      OpeningsExcept(r, PersonaHeading);
      r
    else
      var r := EchoReply(ctx, userMsg);
      StartsStill(r, EchoHeading, NatToString(CountUserTurns(ctx.window.GetOr([]))) + " message(s).) ");
      OpeningsExcept(r, EchoHeading);
      r
  }

  /** A reply built on one heading starts with none of the other openings. */
  lemma OpeningsExcept(r: string, heading: string)
    requires heading in {SummaryHeading, PersonaHeading, EchoHeading}
    requires StartsWith(r, heading)
    ensures r != IntroReply
    ensures StartsWith(r, SummaryHeading) <==> heading == SummaryHeading
    ensures StartsWith(r, PersonaHeading) <==> heading == PersonaHeading
    ensures StartsWith(r, EchoHeading) <==> heading == EchoHeading
  {
    Openings();
    OpeningOf(r, heading);
    if StartsWith(r, SummaryHeading) { OpeningOf(r, SummaryHeading); }
    if StartsWith(r, PersonaHeading) { OpeningOf(r, PersonaHeading); }
    if StartsWith(r, EchoHeading) { OpeningOf(r, EchoHeading); }
  }

  /** The fallback reply quotes at most 140 characters, all from the start of the message,
      and the count it reports never exceeds the window's length. */
  lemma EchoReplyQuotes(ctx: Context, userMsg: string)
    ensures var q := PyPrefix(userMsg, 140);
      var n := CountUserTurns(ctx.window.GetOr([]));
      |q| <= 140 && StartsWith(userMsg, q) && n <= |ctx.window.GetOr([])| &&
      EndsWith(EchoReply(ctx, userMsg), "You said: '" + q + "'. Tell me more so I can help.")
  {
    var head := EchoHeading + NatToString(CountUserTurns(ctx.window.GetOr([]))) + " message(s).) ";
    assert EchoReply(ctx, userMsg) == head + EchoQuote(userMsg);
    EndsWithConcat(head, EchoQuote(userMsg));
  }
}
