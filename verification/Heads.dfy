/** The live chain and its rendering, read off the rows of the log. */
module Heads {
  import opened Prelude
  import opened SessionLog
  import opened Threads

  // ------------------------------------------------------------ the summaries

  /** A summary for `peer` whose range no later one contains. */
  ghost predicate LiveAt(log: seq<Record>, i: nat, peer: string) {
    i < |log| && log[i].Summary? && log[i].peer == peer &&
    forall j :: i < j < |log| && log[j].Summary? && log[j].peer == peer ==>
      !(log[j].from <= log[i].from && log[i].until <= log[j].until)
  }

  /** Ends ascend; of two with one end the older comes first. */
  ghost predicate InOrder(log: seq<Record>, rows: seq<nat>) {
    (forall k :: 0 <= k < |rows| ==> rows[k] < |log| && log[rows[k]].Summary?) &&
    forall j, k :: 0 <= j < k < |rows| ==> Earlier(log, rows[j], rows[k])
  }

  /** The chain holds exactly the live summaries, in order. */
  ghost predicate ChainIs(log: seq<Record>, peer: string, chain: seq<Record>) {
    exists rows: seq<nat> :: ListsLive(log, peer, rows, chain)
  }

  ghost predicate ListsLive(log: seq<Record>, peer: string, rows: seq<nat>, chain: seq<Record>) {
    |rows| == |chain| && InOrder(log, rows) && (forall k :: 0 <= k < |rows| ==> chain[k] == log[rows[k]]) &&
    forall i :: i in rows <==> LiveAt(log, i, peer)
  }

  ghost predicate Ascend(rows: seq<nat>, n: nat) {
    (forall k :: 0 <= k < |rows| ==> rows[k] < n) && forall j, k :: 0 <= j < k < |rows| ==> rows[j] < rows[k]
  }

  ghost predicate At(log: seq<Record>, rows: seq<nat>, rs: seq<Record>) {
    |rows| == |rs| && forall k :: 0 <= k < |rows| ==> rows[k] < |log| && log[rows[k]] == rs[k]
  }

  ghost predicate ListsSummaries(log: seq<Record>, peer: string, rows: seq<nat>) {
    Ascend(rows, |log|) && At(log, rows, Summaries(log, peer)) &&
    forall i: nat :: i in rows <==> i < |log| && SummaryFor(log[i], peer)
  }

  lemma {:induction false} SummaryRows(log: seq<Record>, peer: string) returns (rows: seq<nat>)
    ensures ListsSummaries(log, peer, rows)
  {
    if log == [] {
      rows := [];
    } else {
      var init, r := log[..|log| - 1], log[|log| - 1];
      rows := SummaryRows(init, peer);
      assert forall i :: 0 <= i < |init| ==> log[i] == init[i];
      if SummaryFor(r, peer) { rows := rows + [|init|]; }
    }
  }

  /** Of the summaries in the first `n` of these rows, the live ones. */
  ghost function LiveRows(log: seq<Record>, peer: string, all: seq<nat>, n: nat): seq<nat>
    requires n <= |all|
  {
    if n == 0 then []
    else LiveRows(log, peer, all, n - 1) + if LiveAt(log, all[n - 1], peer) then [all[n - 1]] else []
  }

  lemma SupersededIsDead(log: seq<Record>, peer: string, all: seq<nat>, k: nat)
    requires ListsSummaries(log, peer, all) && k < |all| && Superseded(Summaries(log, peer), k)
    ensures !LiveAt(log, all[k], peer)
  {
    var rs := Summaries(log, peer);
    var j :| k < j < |rs| && Contains(rs[j], rs[k]);
    assert all[j] in all && all[k] in all && all[k] < all[j];
    assert rs[j] == log[all[j]] && rs[k] == log[all[k]];
  }

  lemma SurvivorIsLive(log: seq<Record>, peer: string, all: seq<nat>, k: nat)
    requires ListsSummaries(log, peer, all) && k < |all| && !Superseded(Summaries(log, peer), k)
    ensures LiveAt(log, all[k], peer)
  {
    var rs, i := Summaries(log, peer), all[k];
    assert i in all && rs[k] == log[i];
    forall j | i < j < |log| && log[j].Summary? && log[j].peer == peer
      ensures !(log[j].from <= log[i].from && log[i].until <= log[j].until)
    {
      assert j in all;
      var m :| 0 <= m < |all| && all[m] == j;
      assert rs[m] == log[j] && k < m;
      assert !Contains(rs[m], rs[k]);
    }
  }

  lemma SurvivesIff(log: seq<Record>, peer: string, all: seq<nat>, k: nat)
    requires ListsSummaries(log, peer, all) && k < |all|
    ensures Superseded(Summaries(log, peer), k) <==> !LiveAt(log, all[k], peer)
  {
    if Superseded(Summaries(log, peer), k) {
      SupersededIsDead(log, peer, all, k);
    } else {
      SurvivorIsLive(log, peer, all, k);
    }
  }

  lemma SurvivorsStep(rs: seq<Record>, n: nat)
    requires n < |rs|
    ensures Survivors(rs, n + 1) == if Superseded(rs, n) then Survivors(rs, n) else Survivors(rs, n) + [rs[n]]
  {
    assert Survivors(rs, n) + [] == Survivors(rs, n);
  }

  lemma LiveRowsStep(log: seq<Record>, peer: string, all: seq<nat>, n: nat)
    requires n < |all|
    ensures LiveRows(log, peer, all, n + 1) ==
      if LiveAt(log, all[n], peer) then LiveRows(log, peer, all, n) + [all[n]] else LiveRows(log, peer, all, n)
  {
    var rows := LiveRows(log, peer, all, n);
    assert rows + [] == rows;
  }

  lemma AtMore(log: seq<Record>, rows: seq<nat>, rs: seq<Record>, i: nat, r: Record)
    requires At(log, rows, rs) && i < |log| && log[i] == r
    ensures At(log, rows + [i], rs + [r])
  {
  }

  lemma {:induction false} LiveRowsShow(log: seq<Record>, peer: string, all: seq<nat>, n: nat)
    requires ListsSummaries(log, peer, all) && n <= |all|
    ensures At(log, LiveRows(log, peer, all, n), Survivors(Summaries(log, peer), n))
  {
    if n > 0 {
      var k, rs := n - 1, Summaries(log, peer);
      LiveRowsShow(log, peer, all, k);
      SurvivesIff(log, peer, all, k);
      SurvivorsStep(rs, k);
      LiveRowsStep(log, peer, all, k);
      AtMore(log, LiveRows(log, peer, all, k), Survivors(rs, k), all[k], rs[k]);
    }
  }

  lemma {:induction false} LiveRowsAscend(log: seq<Record>, peer: string, all: seq<nat>, n: nat)
    requires Ascend(all, |log|) && n <= |all|
    ensures Ascend(LiveRows(log, peer, all, n), |log|)
    ensures forall x <- LiveRows(log, peer, all, n) :: n > 0 && x <= all[n - 1]
  {
    if n > 0 {
      LiveRowsAscend(log, peer, all, n - 1);
      var rows := LiveRows(log, peer, all, n - 1);
      forall k | 0 <= k < |rows| ensures rows[k] < all[n - 1] {
        assert rows[k] in rows && all[n - 2] < all[n - 1];
      }
    }
  }

  lemma {:induction false} LiveRowsAre(log: seq<Record>, peer: string, all: seq<nat>, n: nat)
    requires n <= |all|
    ensures forall i :: i in LiveRows(log, peer, all, n) <==> i in all[..n] && LiveAt(log, i, peer)
  {
    if n > 0 {
      LiveRowsAre(log, peer, all, n - 1);
      assert all[..n] == all[..n - 1] + [all[n - 1]];
    }
  }

  lemma {:induction false} InsertRow(log: seq<Record>, rows: seq<nat>, rs: seq<Record>, i: nat, r: Record)
    returns (out: seq<nat>)
    requires InOrder(log, rows) && At(log, rows, rs) && SortedByUntil(rs)
    requires i < |log| && log[i] == r && r.Summary? && forall k :: 0 <= k < |rows| ==> rows[k] < i
    ensures InOrder(log, out) && At(log, out, InsertByUntil(r, rs))
    ensures forall x :: x in out <==> x in rows || x == i
  {
    var n := |rs|;
    if n == 0 || rs[n - 1].until <= r.until {
      out := rows + [i];
    } else {
      var front := InsertRow(log, rows[..n - 1], rs[..n - 1], i, r);
      out := front + [rows[n - 1]];
      LastRowAfter(log, rows, rs, i, r, front);
    }
  }

  predicate Earlier(log: seq<Record>, a: nat, b: nat) {
    a < |log| && b < |log| && log[a].Summary? && log[b].Summary? &&
    (log[a].until < log[b].until || (log[a].until == log[b].until && a < b))
  }

  lemma InOrderMore(log: seq<Record>, front: seq<nat>, last: nat)
    requires InOrder(log, front) && last < |log| && log[last].Summary?
    requires forall x :: x in front ==> Earlier(log, x, last)
    ensures InOrder(log, front + [last])
  {
    var all := front + [last];
    forall j, k | 0 <= j < k < |all| ensures Earlier(log, all[j], all[k]) {
      if k == |front| { assert all[j] in front; }
    }
  }

  lemma LastRowAfter(log: seq<Record>, rows: seq<nat>, rs: seq<Record>, i: nat, r: Record, front: seq<nat>)
    requires InOrder(log, rows) && At(log, rows, rs) && rs != [] && i < |log| && log[i] == r && r.Summary?
    requires r.until < rs[|rs| - 1].until && InOrder(log, front)
    requires forall x :: x in front <==> x in rows[..|rs| - 1] || x == i
    ensures InOrder(log, front + [rows[|rs| - 1]])
    ensures forall x :: x in front + [rows[|rs| - 1]] <==> x in rows || x == i
  {
    var n := |rs|;
    assert rows == rows[..n - 1] + [rows[n - 1]];
    forall x | x in front ensures Earlier(log, x, rows[n - 1]) {
      if x != i {
        var m :| 0 <= m < n - 1 && rows[..n - 1][m] == x;
        assert rows[m] == x && Earlier(log, rows[m], rows[n - 1]);
      }
    }
    InOrderMore(log, front, rows[n - 1]);
  }

  lemma {:induction false} SortRows(log: seq<Record>, rows: seq<nat>, rs: seq<Record>) returns (out: seq<nat>)
    requires Ascend(rows, |log|) && At(log, rows, rs) && forall r <- rs :: r.Summary?
    ensures InOrder(log, out) && At(log, out, SortByUntil(rs))
    ensures forall x :: x in out <==> x in rows
  {
    if rs == [] {
      out := [];
    } else {
      var n := |rs| - 1;
      var front := SortRows(log, rows[..n], rs[..n]);
      BelowLast(rows, n, front);
      out := InsertRow(log, front, SortByUntil(rs[..n]), rows[n], rs[n]);
      LastIsIn(rows, n);
    }
  }

  lemma LastIsIn(rows: seq<nat>, n: nat)
    requires |rows| == n + 1
    ensures forall x :: x in rows <==> x in rows[..n] || x == rows[n]
  {
    assert rows == rows[..n] + [rows[n]];
  }

  lemma BelowLast(rows: seq<nat>, n: nat, front: seq<nat>)
    requires n < |rows| && (forall j, k :: 0 <= j < k < |rows| ==> rows[j] < rows[k])
    requires forall x :: x in front <==> x in rows[..n]
    ensures forall k :: 0 <= k < |front| ==> front[k] < rows[n]
  {
    forall k | 0 <= k < |front| ensures front[k] < rows[n] {
      assert front[k] in front;
      var m :| 0 <= m < n && rows[..n][m] == front[k];
    }
  }

  lemma ChainListsLive(log: seq<Record>, peer: string)
    ensures ChainIs(log, peer, Chain(log, peer))
  {
    var all := SummaryRows(log, peer);
    var live := LiveRows(log, peer, all, |all|);
    LiveRowsShow(log, peer, all, |all|);
    LiveRowsAscend(log, peer, all, |all|);
    LiveRowsAre(log, peer, all, |all|);
    assert all[..|all|] == all;
    var rows := SortRows(log, live, Live(log, peer));
    assert ListsLive(log, peer, rows, Chain(log, peer));
  }

  // ------------------------------------------------------------ the summary head

  /** `parts` are the texts there are, oldest first, and after them the newest durable block. */
  ghost predicate HeadParts(chain: seq<Record>, ks: seq<nat>, parts: seq<string>) {
    |ks| <= |parts| && (forall r <- chain :: r.Summary?) && Ascend(ks, |chain|) &&
    (forall k: nat :: k in ks <==> k < |chain| && chain[k].text != "") &&
    (forall k :: 0 <= k < |ks| ==> parts[k] == chain[ks[k]].text) &&
    if exists d: nat :: NewestWithDurable(chain, d) then
      |parts| == |ks| + 1 && forall d: nat :: NewestWithDurable(chain, d) ==> parts[|ks|] == chain[d].durable
    else |parts| == |ks|
  }

  ghost predicate NewestWithDurable(chain: seq<Record>, d: nat)
    requires forall r <- chain :: r.Summary?
  {
    d < |chain| && chain[d].durable != "" && forall k :: d < k < |chain| ==> chain[k].durable == ""
  }

  ghost predicate HeadIs(chain: seq<Record>, block: string) {
    exists ks, parts :: HeadParts(chain, ks, parts) && if parts == [] then block == "" else Paragraphs(block, parts)
  }

  /** The thread led by what stands for the talk before it, as (part of) a user turn. */
  ghost predicate LedBy(chain: seq<Record>, raw: seq<Turn>, turns: seq<Turn>)
    requires SortedByUntil(chain)
  {
    exists block :: HeadIs(chain, block) &&
      if chain == [] || block == "" then turns == raw
      else
        var until := chain[|chain| - 1].until;
        if raw != [] && raw[0].role == User then
          |turns| == |raw| && Paragraphs(turns[0].text, [block, raw[0].text]) &&
          turns == [Turn(User, turns[0].text, until)] + raw[1..]
        else turns == [Turn(User, block, until)] + raw
  }

  lemma {:induction false} JoinIsParagraphs(parts: seq<string>)
    requires parts != []
    ensures Paragraphs(Join(parts), parts)
  {
    if |parts| == 1 {
      OneParagraph(parts[0]);
      assert parts == [parts[0]];
    } else {
      var init := parts[..|parts| - 1];
      JoinIsParagraphs(init);
      NextParagraph(Join(init), init, parts[|parts| - 1]);
      assert init + [parts[|parts| - 1]] == parts;
    }
  }

  ghost predicate ListsTexts(chain: seq<Record>, ks: seq<nat>)
    requires forall r <- chain :: r.Summary?
  {
    Ascend(ks, |chain|) && |ks| == |Texts(chain)| &&
    (forall k: nat :: k in ks <==> k < |chain| && chain[k].text != "") &&
    forall k :: 0 <= k < |ks| ==> Texts(chain)[k] == chain[ks[k]].text
  }

  lemma {:induction false} TextRows(chain: seq<Record>) returns (ks: seq<nat>)
    requires forall r <- chain :: r.Summary?
    ensures ListsTexts(chain, ks)
  {
    if chain == [] {
      ks := [];
    } else {
      var init := chain[..|chain| - 1];
      ks := TextRows(init);
      assert forall k :: 0 <= k < |init| ==> chain[k] == init[k];
      if chain[|chain| - 1].text != "" { ks := ks + [|init|]; }
    }
  }

  lemma {:induction false} DurableIsNewest(chain: seq<Record>)
    requires forall r <- chain :: r.Summary?
    ensures NewestDurable(chain) != "" <==> exists d: nat :: NewestWithDurable(chain, d)
    ensures forall d: nat :: NewestWithDurable(chain, d) ==> NewestDurable(chain) == chain[d].durable
  {
    if chain != [] {
      var n := |chain| - 1;
      var init := chain[..n];
      assert forall k :: 0 <= k < n ==> chain[k] == init[k];
      if chain[n].durable != "" {
        assert NewestWithDurable(chain, n);
      } else {
        DurableIsNewest(init);
        forall d: nat ensures NewestWithDurable(chain, d) <==> NewestWithDurable(init, d) {}
      }
    }
  }

  lemma BlockIsHead(chain: seq<Record>)
    requires forall r <- chain :: r.Summary?
    ensures HeadIs(chain, SummariesBlock(chain))
  {
    var ks := TextRows(chain);
    DurableIsNewest(chain);
    var durable := NewestDurable(chain);
    var parts := Texts(chain) + if durable != "" then [durable] else [];
    if parts != [] { JoinIsParagraphs(parts); }
    assert HeadParts(chain, ks, parts);
  }

  lemma HeadedIsLed(chain: seq<Record>, raw: seq<Turn>)
    requires SortedByUntil(chain)
    ensures LedBy(chain, raw, WithHead(raw, chain))
  {
    var block := SummariesBlock(chain);
    BlockIsHead(chain);
    if raw != [] {
      OneParagraph(block);
      NextParagraph(block, [block], raw[0].text);
      assert [block] + [raw[0].text] == [block, raw[0].text];
    }
  }

  // -------------------------------------------------------------- all of it

  ghost predicate RebuiltFrom(log: seq<Record>, peer: string, withSummaries: bool, turns: seq<Turn>,
                              chain: seq<Record>, raw: seq<Turn>)
  {
    SortedByUntil(chain) && ChainIs(log, peer, chain) &&
    ThreadIs(log, peer, if chain == [] then 0.0 else chain[|chain| - 1].until, raw) &&
    if withSummaries then LedBy(chain, raw, turns) else turns == raw
  }

  /** The thread with `peer` as the log tells it: the lines from the end of the last live summary on,
      merged, and led by the live summaries when asked for. */
  ghost predicate Rebuilt(log: seq<Record>, peer: string, withSummaries: bool, turns: seq<Turn>) {
    exists chain, raw :: RebuiltFrom(log, peer, withSummaries, turns, chain, raw)
  }

  lemma RebuiltAsLogged(log: seq<Record>, peer: string, withSummaries: bool)
    ensures
      var turns := if withSummaries then Conversation(log, peer) else RawConversation(log, peer);
      Rebuilt(log, peer, withSummaries, turns)
  {
    var chain, raw := Chain(log, peer), RawConversation(log, peer);
    ChainListsLive(log, peer);
    RebuiltIsThread(log, peer, Seam(chain));
    HeadedIsLed(chain, raw);
    assert RebuiltFrom(log, peer, withSummaries, if withSummaries then WithHead(raw, chain) else raw, chain, raw);
  }
}
