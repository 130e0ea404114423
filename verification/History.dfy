/**
 The history sent to a provider: fair truncation to a character budget, the
 drop-oldest fallback, and the alternation every provider relies on.
 */
module History {
  import opened Prelude
  import opened FairShare
  import opened SessionLog
  import opened Threads
  import opened Markers

  const MIN_USEFUL_CHARS := 200

  // ------------------------------------------------------- fair truncation

  /** The newest turns, so few that their omission markers alone fit the budget. */
  function Window(turns: seq<Turn>, budget: int): (w: seq<Turn>)
    ensures |w| == Min(|turns|, Max(1, budget * 4 / 100)) && w == turns[|turns| - |w|..]
  {
    turns[Max(0, |turns| - Max(1, budget * 4 / 100))..]
  }

  function Lengths(turns: seq<Turn>): (sizes: seq<nat>)
    ensures |sizes| == |turns| && forall i :: 0 <= i < |turns| ==> sizes[i] == |turns[i].text|
  {
    seq(|turns|, i requires 0 <= i < |turns| => |turns[i].text|)
  }

  function Render(text: string, share: nat): string {
    if share >= |text| then text
    else if share < MIN_USEFUL_CHARS then OmittedMarker(|text|)
    else text[..Max(0, share - |CutMarker(|text|)|)] + CutMarker(|text|)
  }

  /** Every text of `window` up to `i` is rendered to its share, and nothing else is changed. */
  ghost predicate Rendered(window: seq<Turn>, shares: seq<nat>, out: seq<Turn>, i: nat)
    requires i <= |window| == |shares|
  {
    |out| == i && forall k :: 0 <= k < i ==> out[k] == window[k].(text := Render(window[k].text, shares[k]))
  }

  /** Some turn up to `i` kept (part of) its own text. */
  ghost predicate Survived(window: seq<Turn>, shares: seq<nat>, i: nat)
    requires i <= |window| == |shares|
  {
    exists k :: 0 <= k < i && Min(MIN_USEFUL_CHARS, |window[k].text|) <= shares[k]
  }

  ghost predicate FairlyTruncated(turns: seq<Turn>, budget: int, shares: seq<nat>, out: seq<Turn>) {
    var window := Window(turns, budget);
    FairShares(Lengths(window), budget * 4, shares) && Rendered(window, shares, out, |window|)
  }

  /** The flag says whether anything useful survived the truncation. */
  ghost predicate FairOutcome(turns: seq<Turn>, budget: int, shares: seq<nat>, out: seq<Turn>, survived: bool) {
    FairlyTruncated(turns, budget, shares, out) &&
    (survived <==> Survived(Window(turns, budget), shares, |shares|))
  }

  /** The text cut to its first characters, with the marker as long as the share where that fits. */
  ghost predicate CutTo(text: string, share: nat, shown: string) {
    exists marker :: Marks(marker, "\n[... truncated, ", |text|, " chars]") &&
      if |marker| <= share then share < |text| && shown == text[..share - |marker|] + marker else shown == marker
  }

  /** A text as its share shows it: whole, cut, or only counted. */
  ghost predicate ShownAs(text: string, share: nat, shown: string) {
    if |text| <= share then shown == text
    else if share < 200 then Marks(shown, "[omitted message, ", |text|, " chars]")
    else CutTo(text, share, shown)
  }

  lemma RenderShows(text: string, share: nat)
    ensures ShownAs(text, share, Render(text, share))
  {
    MarkersSayLength(|text|);
    if MIN_USEFUL_CHARS <= share < |text| {
      CutShows(text, share, CutMarker(|text|));
    }
  }

  lemma CutShows(text: string, share: nat, marker: string)
    requires Marks(marker, "\n[... truncated, ", |text|, " chars]") && share < |text|
    ensures CutTo(text, share, text[..Max(0, share - |marker|)] + marker)
  {
    assert text[..0] + marker == marker;
  }

  ghost predicate ShownTurn(t: Turn, share: nat, out: Turn) {
    out == t.(text := out.text) && ShownAs(t.text, share, out.text)
  }

  predicate Useful(t: Turn, share: nat) {
    200 <= share || |t.text| <= share
  }

  /** Each turn in its place and shown as its share allows; something useful survived if some text
      is whole or has at least 200 characters to show. */
  ghost predicate TruncatesAll(window: seq<Turn>, shares: seq<nat>, out: seq<Turn>, survived: bool) {
    |out| == |shares| == |window| &&
    (forall k :: 0 <= k < |window| ==> ShownTurn(window[k], shares[k], out[k])) &&
    (survived <==> exists k :: 0 <= k < |window| && Useful(window[k], shares[k]))
  }

  /** The same of the newest turns, so few that their omission markers alone fit the budget. */
  ghost predicate Truncates(turns: seq<Turn>, budget: int, shares: seq<nat>, out: seq<Turn>, survived: bool) {
    TruncatesAll(turns[|turns| - Min(|turns|, Max(1, budget * 4 / 100))..], shares, out, survived)
  }

  lemma OutcomeTruncates(window: seq<Turn>, shares: seq<nat>, out: seq<Turn>, survived: bool)
    requires |window| == |shares| && Rendered(window, shares, out, |window|)
    requires survived <==> Survived(window, shares, |window|)
    ensures TruncatesAll(window, shares, out, survived)
  {
    forall k | 0 <= k < |window| ensures ShownTurn(window[k], shares[k], out[k]) {
      RenderShows(window[k].text, shares[k]);
    }
    forall k | 0 <= k < |window|
      ensures Useful(window[k], shares[k]) <==> Min(MIN_USEFUL_CHARS, |window[k].text|) <= shares[k]
    {
    }
  }

  method FairTruncateTurns(turns: seq<Turn>, budget: int) returns (out: seq<Turn>, survived: bool)
    ensures exists shares ::
      FairOutcome(turns, budget, shares, out, survived) && Truncates(turns, budget, shares, out, survived)
  {
    var window := Window(turns, budget);
    var shares := FairCharAllocations(Lengths(window), budget * 4);
    out, survived := RenderAll(window, shares);
    assert FairOutcome(turns, budget, shares, out, survived);
    OutcomeTruncates(window, shares, out, survived);
  }

  method RenderAll(window: seq<Turn>, shares: seq<nat>) returns (out: seq<Turn>, survived: bool)
    requires |window| == |shares|
    ensures Rendered(window, shares, out, |window|) && (survived <==> Survived(window, shares, |window|))
  {
    out, survived := [], false;
    for i := 0 to |window|
      invariant Rendered(window, shares, out, i) && (survived <==> Survived(window, shares, i))
    {
      var turn, useful := RenderTurn(window[i], shares[i]);
      RenderedStep(window, shares, out, i, turn);
      out := out + [turn];
      survived := survived || useful;
    }
  }

  method RenderTurn(turn: Turn, share: nat) returns (out: Turn, useful: bool)
    ensures out == turn.(text := Render(turn.text, share))
    ensures useful <==> Min(MIN_USEFUL_CHARS, |turn.text|) <= share
  {
    var text := turn.text;
    if share >= |text| {
      return turn, true;
    }
    if share < MIN_USEFUL_CHARS {
      return turn.(text := OmittedMarker(|text|)), false;
    }
    var marker := CutMarker(|text|);
    return turn.(text := text[..Max(0, share - |marker|)] + marker), true;
  }

  lemma RenderedStep(window: seq<Turn>, shares: seq<nat>, out: seq<Turn>, i: nat, turn: Turn)
    requires i < |window| == |shares| && Rendered(window, shares, out, i)
    requires turn == window[i].(text := Render(window[i].text, shares[i]))
    ensures Rendered(window, shares, out + [turn], i + 1)
    ensures Survived(window, shares, i + 1) <==>
      Survived(window, shares, i) || Min(MIN_USEFUL_CHARS, |window[i].text|) <= shares[i]
  {
  }

  /** No rendering is longer than the share it was given, once the share is at least 100. */
  lemma RenderFits(text: string, share: nat)
    requires |text| < Pow10(75) && (share < |text| ==> share >= 100)
    ensures share <= |text| ==> |Render(text, share)| <= share
  {
    if share < |text| {
      DecimalLength(|text|, 75);
    }
  }

  /** The whole truncated history, markers included, fits the budget it was truncated for. */
  lemma TruncationFits(turns: seq<Turn>, budget: int, shares: seq<nat>, out: seq<Turn>)
    requires budget >= 25 && FairlyTruncated(turns, budget, shares, out)
    requires forall t <- turns :: |t.text| < Pow10(75)
    ensures Sum(Lengths(out)) <= 4 * budget
  {
    var window := Window(turns, budget);
    var sizes := Lengths(window);
    forall i | 0 <= i < |window| ensures Lengths(out)[i] <= shares[i] {
      if shares[i] < sizes[i] {
        CutGetsItsEqualShare(sizes, budget * 4, shares, i);
        EqualShareIsUseful(budget, |window|);
      }
      assert window[i] in turns;
      RenderFits(window[i].text, shares[i]);
    }
    SumMono(Lengths(out), shares);
  }

  lemma EqualShareIsUseful(budget: int, n: nat)
    requires budget >= 25 && 0 < n <= Max(1, budget * 4 / 100)
    ensures budget * 4 / n >= 100
  {
    var b := budget * 4;
    DivBounds(b, 100);
    MulMono(n, b / 100, 100);
    DivLower(b, n, 100);
  }

  /** Below 25 tokens only the newest turn is kept, and its marker may outgrow the budget: exactly when. */
  lemma TinyBudgetFits(turns: seq<Turn>, budget: int, shares: seq<nat>, out: seq<Turn>)
    requires 0 <= budget < 25 && turns != [] && FairlyTruncated(turns, budget, shares, out)
    ensures
      var n := |turns[|turns| - 1].text|;
      Sum(Lengths(out)) <= 4 * budget <==> n <= 4 * budget || 25 + |Decimal(n)| <= 4 * budget
  {
    var window := Window(turns, budget);
    var text := turns[|turns| - 1].text;
    assert |window| == 1 && window[0].text == text;
    SumOne(shares);
    SumOne(Lengths(window));
    SumOne(Lengths(out));
    assert shares[0] == Min(4 * budget, |text|);
  }

  /** So the marker can outgrow the budget: 500 characters and a budget of 5 tokens, 20 characters. */
  lemma TinyMarkerOutgrows(turn: Turn, shares: seq<nat>, out: seq<Turn>)
    requires |turn.text| == 500 && FairlyTruncated([turn], 5, shares, out)
    ensures Sum(Lengths(out)) > 4 * 5
  {
    TinyBudgetFits([turn], 5, shares, out);
    assert |Decimal(500)| >= 1;
  }

  lemma SumOne(xs: seq<nat>)
    requires |xs| == 1
    ensures Sum(xs) == xs[0]
  {
    assert Sum(xs[1..]) == 0;
  }

  // ------------------------------------------------------------ drop oldest

  lemma {:induction false} TokenTotalCons(t: Turn, turns: seq<Turn>)
    ensures TokenTotal([t] + turns) == EstimateTokens(t.text) + TokenTotal(turns)
  {
    if turns == [] {
      assert [t] + turns == [t] && [t][..0] == [];
    } else {
      var init := turns[..|turns| - 1];
      TokenTotalCons(t, init);
      assert ([t] + turns)[..|turns|] == [t] + init;
    }
  }

  /** The longest suffix of whole turns that fits `budget` tokens. */
  ghost predicate LongestFit(turns: seq<Turn>, budget: int, kept: seq<Turn>) {
    |kept| <= |turns| && kept == turns[|turns| - |kept|..] &&
    (kept != [] ==> TokenTotal(kept) <= budget) &&
    (|kept| < |turns| ==> TokenTotal(turns[|turns| - |kept| - 1..]) > budget)
  }

  method DropOldest(turns: seq<Turn>, budget: int) returns (kept: seq<Turn>)
    ensures LongestFit(turns, budget, kept)
  {
    kept := [];
    var used := 0;
    var i := |turns|;
    while i > 0
      invariant 0 <= i <= |turns| && kept == turns[i..]
      invariant used == TokenTotal(kept) && (kept != [] ==> used <= budget)
    {
      var cost := EstimateTokens(turns[i - 1].text);
      TokenTotalCons(turns[i - 1], kept);
      assert [turns[i - 1]] + turns[i..] == turns[i - 1..];
      if used + cost > budget {
        break;
      }
      kept := [turns[i - 1]] + kept;
      used := used + cost;
      i := i - 1;
    }
  }

  // ---------------------------------------------------------- build history

  /** What every provider request needs: nothing, or a user turn first and strict alternation. */
  ghost predicate ProviderReady(turns: seq<Turn>) {
    Alternates(turns) && (turns != [] ==> turns[0].role == User) && NoTools(turns)
  }

  ghost predicate SameShape(a: seq<Turn>, b: seq<Turn>) {
    |a| == |b| && forall i :: 0 <= i < |a| ==> a[i].role == b[i].role && a[i].ts == b[i].ts
  }

  /** The number of leading assistant turns. */
  function LeadingAssistants(turns: seq<Turn>): (k: nat)
    ensures k <= |turns| && (forall i :: 0 <= i < k ==> turns[i].role == Assistant)
    ensures k < |turns| ==> turns[k].role != Assistant
  {
    if turns != [] && turns[0].role == Assistant then 1 + LeadingAssistants(turns[1..]) else 0
  }

  /** Fair truncation, or whole newest turns when nothing useful survives it. */
  ghost predicate Trimmed(turns: seq<Turn>, budget: int, shares: seq<nat>, kept: seq<Turn>) {
    var window := Window(turns, budget);
    FairShares(Lengths(window), budget * 4, shares) &&
    if Survived(window, shares, |shares|) then FairlyTruncated(turns, budget, shares, kept)
    else LongestFit(turns, budget, kept)
  }

  method TrimTurns(turns: seq<Turn>, budget: int) returns (kept: seq<Turn>, ghost shares: seq<nat>)
    ensures Trimmed(turns, budget, shares, kept)
  {
    var survived;
    kept, survived := FairTruncateTurns(turns, budget);
    shares :| FairOutcome(turns, budget, shares, kept, survived);
    if !survived {
      kept := DropOldest(turns, budget);
    }
  }

  /** Either way the result is a suffix of the turns in roles and time stamps. */
  lemma TrimmedShape(turns: seq<Turn>, budget: int, shares: seq<nat>, kept: seq<Turn>)
    requires Trimmed(turns, budget, shares, kept)
    ensures |kept| <= |turns| && SameShape(kept, turns[|turns| - |kept|..])
  {
    var window := Window(turns, budget);
    if Survived(window, shares, |shares|) {
      RenderedShape(turns, budget, shares, kept);
    } else {
      SelfShape(kept);
    }
  }

  lemma RenderedShape(turns: seq<Turn>, budget: int, shares: seq<nat>, kept: seq<Turn>)
    requires FairlyTruncated(turns, budget, shares, kept)
    ensures |kept| <= |turns| && SameShape(kept, turns[|turns| - |kept|..])
  {
  }

  lemma SelfShape(turns: seq<Turn>)
    ensures SameShape(turns, turns)
  {
  }

  /** Drop leading assistant turns, then prepend the note on where older messages are to the oldest user turn. */
  function Opened(kept: seq<Turn>, pointer: string): seq<Turn> {
    var k := kept[LeadingAssistants(kept)..];
    if k == [] then [] else [k[0].(text := pointer + "\n\n" + k[0].text)] + k[1..]
  }

  /** The turns from the first one that is not the assistant's, the note ahead of its text. */
  ghost predicate OpensWith(kept: seq<Turn>, pointer: string, messages: seq<Turn>) {
    exists k: nat :: OpensAt(kept, pointer, messages, k)
  }

  ghost predicate OpensAt(kept: seq<Turn>, pointer: string, messages: seq<Turn>, k: nat) {
    k <= |kept| && (forall i :: 0 <= i < k ==> kept[i].role == Assistant) &&
    if k == |kept| then messages == []
    else
      kept[k].role != Assistant && |messages| == |kept| - k && messages[1..] == kept[k + 1..] &&
      messages[0] == kept[k].(text := messages[0].text) && Paragraphs(messages[0].text, [pointer, kept[k].text])
  }

  lemma HeadedText(pointer: string, text: string)
    ensures Paragraphs(pointer + "\n\n" + text, [pointer, text])
  {
    OneParagraph(pointer);
    NextParagraph(pointer, [pointer], text);
    assert [pointer] + [text] == [pointer, text];
  }

  lemma OpenedOpens(kept: seq<Turn>, pointer: string)
    ensures OpensWith(kept, pointer, Opened(kept, pointer))
  {
    var k := LeadingAssistants(kept);
    var messages := Opened(kept, pointer);
    if k < |kept| {
      HeadedText(pointer, kept[k].text);
      assert kept[k..][0] == kept[k] && kept[k..][1..] == kept[k + 1..];
      assert messages[1..] == kept[k + 1..] && |messages| == |kept| - k;
      assert messages[0] == kept[k].(text := messages[0].text);
    }
    assert OpensAt(kept, pointer, messages, k);
  }

  method DropLeadingAssistants(turns: seq<Turn>) returns (kept: seq<Turn>)
    ensures kept == turns[LeadingAssistants(turns)..]
  {
    kept := turns;
    ghost var k := 0;
    while kept != [] && kept[0].role == Assistant
      invariant k <= |turns| && kept == turns[k..]
      invariant k + LeadingAssistants(kept) == LeadingAssistants(turns)
    {
      kept := kept[1..];
      k := k + 1;
    }
  }

  method OpenTrimmed(kept: seq<Turn>, pointer: string) returns (messages: seq<Turn>)
    requires Alternates(kept) && NoTools(kept)
    ensures messages == Opened(kept, pointer) && ProviderReady(messages)
  {
    messages := DropLeadingAssistants(kept);
    OpeningIsReady(kept);
    if messages != [] {
      ghost var k := messages;
      messages := [messages[0].(text := pointer + "\n\n" + messages[0].text)] + messages[1..];
      NewHeadReady(k, messages);
    }
  }

  lemma NewHeadReady(k: seq<Turn>, messages: seq<Turn>)
    requires k != [] && ProviderReady(k)
    requires |messages| == |k| && messages[0].role == k[0].role && messages[1..] == k[1..]
    ensures ProviderReady(messages)
  {
    assert forall i :: 0 < i < |k| ==> messages[i] == messages[1..][i - 1] && k[i] == k[1..][i - 1];
  }

  method BuildHistory(turns: seq<Turn>, budget: int, pointer: string)
    returns (messages: seq<Turn>, oldest: Option<real>, ghost cut: seq<Turn>, ghost shares: seq<nat>)
    requires Alternates(turns) && NoTools(turns)
    ensures ProviderReady(messages)
    ensures oldest == if messages == [] then None else Some(messages[0].ts)
    ensures budget <= 0 ==> messages == []
    ensures budget > 0 && TokenTotal(turns) <= budget ==> messages == turns[LeadingAssistants(turns)..]
    ensures TokenTotal(turns) > budget > 0 ==>
      Trimmed(turns, budget, shares, cut) && OpensWith(cut, pointer, messages)
  {
    messages, oldest, cut, shares := [], None, [], [];
    if budget <= 0 || turns == [] {
      return;
    }
    if TokenTotal(turns) > budget {
      var kept;
      kept, shares := TrimTurns(turns, budget);
      cut := kept;
      TrimmedShape(turns, budget, shares, kept);
      SuffixAlternates(turns, |turns| - |kept|, kept);
      messages := OpenTrimmed(kept, pointer);
      OpenedOpens(kept, pointer);
    } else {
      messages := DropLeadingAssistants(turns);
      OpeningIsReady(turns);
    }
    oldest := if messages == [] then None else Some(messages[0].ts);
  }

  lemma OpeningIsReady(kept: seq<Turn>)
    requires Alternates(kept) && NoTools(kept)
    ensures ProviderReady(kept[LeadingAssistants(kept)..])
  {
    SuffixAlternates(kept, LeadingAssistants(kept), kept[LeadingAssistants(kept)..]);
  }

  lemma SuffixAlternates(turns: seq<Turn>, k: nat, kept: seq<Turn>)
    requires Alternates(turns) && NoTools(turns) && k <= |turns| && SameShape(kept, turns[k..])
    ensures Alternates(kept) && NoTools(kept)
  {
    forall i | 0 <= i < |kept| ensures kept[i].role == turns[k + i].role {
      assert turns[k..][i] == turns[k + i];
    }
    forall i | 0 <= i < |kept| - 1 ensures kept[i].role != kept[i + 1].role {
      assert turns[k + i].role != turns[k + i + 1].role;
    }
  }

  /** Leading with the summaries keeps the alternation. */
  lemma HeadAlternates(turns: seq<Turn>, chain: seq<Record>)
    requires Alternates(turns) && NoTools(turns) && SortedByUntil(chain)
    ensures Alternates(WithHead(turns, chain)) && NoTools(WithHead(turns, chain))
  {
  }

  /** The rebuilt thread of any log is fit for `BuildHistory`, whatever was logged. */
  lemma ConversationAlternates(log: seq<Record>, peer: string)
    ensures Alternates(Conversation(log, peer)) && NoTools(Conversation(log, peer))
  {
    EntriesNoTools(log, peer);
    var seam := Seam(Chain(log, peer));
    BetweenSubset(Entries(log, peer), seam, None);
    CoalesceAlternates(Between(Entries(log, peer), seam, None));
    HeadAlternates(RawConversation(log, peer), Chain(log, peer));
  }

  lemma {:induction false} EntriesNoTools(log: seq<Record>, peer: string)
    ensures NoTools(Entries(log, peer))
  {
    if log != [] { EntriesNoTools(log[..|log| - 1], peer); }
  }

  // ------------------------------------------------------------ side threads

  const THREAD_STARTED := "[Thread started on this message]:"

  method CoalesceRows(rows: seq<Turn>) returns (out: seq<Turn>)
    ensures out == Coalesce(rows)
  {
    out := [];
    for i := 0 to |rows|
      invariant out == Coalesce(rows[..i])
    {
      assert rows[..i + 1][..i] == rows[..i];
      out := Push(out, rows[i]);
    }
    assert rows[..|rows|] == rows;
  }

  /** The thread opens as user: a bot's opening is headed, and merged with a user turn after it. */
  ghost predicate OpensThread(c: seq<Turn>, out: seq<Turn>) {
    if c == [] || c[0].role == User then out == c
    else if |c| == 1 then out == [Turn(User, THREAD_STARTED + "\n" + c[0].text, c[0].ts)]
    else out == [Turn(User, THREAD_STARTED + "\n" + c[0].text + "\n\n" + c[1].text, c[0].ts)] + c[2..]
  }

  method OpenThread(c: seq<Turn>) returns (out: seq<Turn>)
    requires Alternates(c) && NoTools(c)
    ensures ProviderReady(out) && OpensThread(c, out)
  {
    out := c;
    if out != [] && out[0].role == Assistant {
      out := [Turn(User, THREAD_STARTED + "\n" + out[0].text, out[0].ts)] + out[1..];
      if |out| > 1 && out[1].role == User {
        out := [out[0].(text := out[0].text + "\n\n" + out[1].text)] + out[2..];
      }
    }
  }

  /** A side thread's parent and replies as provider turns; a bot-authored parent opens as user. */
  method ThreadHistoryMessages(rows: seq<Turn>) returns (out: seq<Turn>)
    requires NoTools(rows)
    ensures ProviderReady(out)
    ensures exists c :: Merged(c, rows) && OpensThread(c, out)
  {
    var c := CoalesceRows(rows);
    CoalesceAlternates(rows);
    CoalesceMerges(rows);
    out := OpenThread(c);
  }
}
