/** The tournament timeline: who holds the lead after which duel, derived from whatever matches and verdicts are
  * cached so far.
  */
module Timeline {
  import opened Wrappers

  type Hotkey = string

  /** A match: the defender and the challenger. */
  datatype Pair = Pair(left: Hotkey, right: Hotkey)

  type Matches = map<Pair, real>

  const LEADER: Hotkey := "leader"

  datatype Verdict = Passed | Failed
  datatype Judgement = Judgement(verdict: Verdict, reason: string)

  datatype Status = Won | Lost | Pending | Rejected

  datatype Entry = Entry(
    hotkey: Hotkey, status: Status, defender: Hotkey, margin: Option<real>, verified: bool, reason: Option<string>)

  /** What is cached about a round. */
  datatype Cache = Cache(
    matches: Matches, winMargin: real, validations: map<Hotkey, Judgement>, audits: map<Hotkey, Judgement>)

  function Lookup<K(==), V>(m: map<K, V>, k: K): Option<V> {
    if k in m then Some(m[k]) else None
  }

  function Truncated(s: string): string {
    if |s| > 64 then s[..64] else s
  }

  /** Why a candidate is out for good, if it is. */
  function RejectionReason(validation: Option<Judgement>, audit: Option<Judgement>): Option<string> {
    if validation.Some? && validation.value.verdict == Failed then Some("validation: " + validation.value.reason)
    else if audit.Some? && audit.value.verdict == Failed then
      Some("source audit" + if audit.value.reason != "" then ": " + Truncated(audit.value.reason) else "")
    else None
  }

  function Reason(c: Cache, hotkey: Hotkey): Option<string> {
    RejectionReason(Lookup(c.validations, hotkey), Lookup(c.audits, hotkey))
  }

  predicate PassedBoth(c: Cache, hotkey: Hotkey) {
    && hotkey in c.validations && c.validations[hotkey].verdict == Passed
    && hotkey in c.audits && c.audits[hotkey].verdict == Passed
  }

  predicate Qualified(c: Cache, hotkey: Hotkey) {
    Pair(LEADER, hotkey) in c.matches && c.matches[Pair(LEADER, hotkey)] >= c.winMargin
  }

  // ---------------------------------------------------------------- derivation

  /** The entries so far, and who defends the lead against the next candidate. */
  datatype Standing = Standing(entries: seq<Entry>, defender: Hotkey, verified: bool)

  /** What happens to a qualified candidate against the given defender. */
  function Outcome(c: Cache, s: Standing, hotkey: Hotkey): Entry {
    if Reason(c, hotkey).Some? then Entry(hotkey, Rejected, s.defender, None, false, Reason(c, hotkey))
    else
      match Lookup(c.matches, Pair(s.defender, hotkey))
      case None => Entry(hotkey, Pending, s.defender, None, false, None)
      case Some(margin) =>
        if margin < c.winMargin then Entry(hotkey, Lost, s.defender, Some(margin), false, None)
        else Entry(hotkey, Won, s.defender, Some(margin), s.verified && PassedBoth(c, hotkey), None)
  }

  function Meet(c: Cache, s: Standing, hotkey: Hotkey): Standing {
    if !Qualified(c, hotkey) then s
    else
      var e := Outcome(c, s, hotkey);
      if e.status == Won then Standing(s.entries + [e], hotkey, e.verified) else s.(entries := s.entries + [e])
  }

  function Standings(c: Cache, hotkeys: seq<Hotkey>): Standing {
    if hotkeys == [] then Standing([], LEADER, true)
    else Meet(c, Standings(c, hotkeys[..|hotkeys| - 1]), hotkeys[|hotkeys| - 1])
  }

  function Entries(c: Cache, hotkeys: seq<Hotkey>): seq<Entry> {
    Standings(c, hotkeys).entries
  }

  method Derive(c: Cache, hotkeys: seq<Hotkey>) returns (entries: seq<Entry>)
    ensures entries == Entries(c, hotkeys)
  {
    entries := [];
    var defender, defenderVerified := LEADER, true;
    for i := 0 to |hotkeys|
      invariant Standing(entries, defender, defenderVerified) == Standings(c, hotkeys[..i])
    {
      var hotkey := hotkeys[i];
      assert hotkeys[..i + 1][..i] == hotkeys[..i];
      var qualification := Lookup(c.matches, Pair(LEADER, hotkey));
      if qualification.None? || qualification.value < c.winMargin {
        continue;
      }
      var reason := RejectionReason(Lookup(c.validations, hotkey), Lookup(c.audits, hotkey));
      if reason.Some? {
        entries := entries + [Entry(hotkey, Rejected, defender, None, false, reason)];
        continue;
      }
      var duel := Lookup(c.matches, Pair(defender, hotkey));
      if duel.None? {
        entries := entries + [Entry(hotkey, Pending, defender, None, false, None)];
        continue;
      }
      if duel.value < c.winMargin {
        entries := entries + [Entry(hotkey, Lost, defender, duel, false, None)];
        continue;
      }
      var validation, audit := Lookup(c.validations, hotkey), Lookup(c.audits, hotkey);
      var verified := && defenderVerified
                      && audit.Some? && audit.value.verdict == Passed
                      && validation.Some? && validation.value.verdict == Passed;
      entries := entries + [Entry(hotkey, Won, defender, duel, verified, None)];
      defender, defenderVerified := hotkey, verified;
    }
    assert hotkeys[..|hotkeys|] == hotkeys;
  }

  // ---------------------------------------------------------------- what is read off a timeline

  function Leaders(entries: seq<Entry>): seq<Entry> {
    if entries == [] then []
    else
      var rest, e := Leaders(entries[..|entries| - 1]), entries[|entries| - 1];
      if e.status == Won then rest + [e] else rest
  }

  function Winner(entries: seq<Entry>): Hotkey {
    var leaders := Leaders(entries);
    if leaders == [] then LEADER else leaders[|leaders| - 1].hotkey
  }

  predicate NonePending(entries: seq<Entry>) {
    forall i :: 0 <= i < |entries| ==> entries[i].status != Pending
  }

  /** Every leader of the chain is verified and no duel is missing. */
  predicate Finalized(entries: seq<Entry>) {
    NonePending(entries) && forall i :: 0 <= i < |entries| && entries[i].status == Won ==> entries[i].verified
  }

  method IsFinalized(entries: seq<Entry>) returns (ok: bool)
    ensures ok <==> Finalized(entries)
  {
    for i := 0 to |entries|
      invariant Finalized(entries[..i])
    {
      assert entries[i] in entries;
      if entries[i].status == Pending {
        return false;
      }
      if entries[i].status == Won && !entries[i].verified {
        return false;
      }
    }
    assert entries[..|entries|] == entries;
    ok := true;
  }

  method NextMatch(entries: seq<Entry>) returns (duel: Option<Pair>)
    ensures duel.None? <==> NonePending(entries)
    ensures duel.Some? ==> exists i :: 0 <= i < |entries| && entries[i].status == Pending && NonePending(entries[..i])
                             && duel.value == Pair(entries[i].defender, entries[i].hotkey)
  {
    for i := 0 to |entries|
      invariant NonePending(entries[..i])
    {
      if entries[i].status == Pending {
        return Some(Pair(entries[i].defender, entries[i].hotkey));
      }
    }
    duel := None;
    assert entries[..|entries|] == entries;
  }

  /** The entries of candidates that are still in the round. */
  function Contenders(entries: seq<Entry>): seq<Entry> {
    if entries == [] then []
    else
      var rest, e := Contenders(entries[..|entries| - 1]), entries[|entries| - 1];
      if e.status != Rejected then rest + [e] else rest
  }

  predicate HaveMet(contenders: seq<Entry>, matches: Matches, i: nat, j: nat)
    requires i < |contenders| && j < |contenders|
  {
    Pair(contenders[i].hotkey, contenders[j].hotkey) in matches
  }

  predicate AllHaveMet(contenders: seq<Entry>, matches: Matches) {
    forall i, j :: 0 <= i < j < |contenders| ==> HaveMet(contenders, matches, i, j)
  }

  /** The first pair of contenders, in the order of the timeline, without a cached match. */
  predicate FirstUnmet(contenders: seq<Entry>, matches: Matches, i: nat, j: nat, duel: Pair) {
    && i < j < |contenders| && duel == Pair(contenders[i].hotkey, contenders[j].hotkey)
    && !HaveMet(contenders, matches, i, j)
    && forall k, l :: 0 <= k < l < |contenders| && (k < i || (k == i && l < j)) ==> HaveMet(contenders, matches, k, l)
  }

  ghost predicate IsFirstUnmet(contenders: seq<Entry>, matches: Matches, duel: Pair) {
    exists i: nat, j: nat :: FirstUnmet(contenders, matches, i, j, duel)
  }

  method FindExploratoryDuel(entries: seq<Entry>, matches: Matches) returns (duel: Option<Pair>)
    ensures var contenders := Contenders(entries);
            if duel.Some? then IsFirstUnmet(contenders, matches, duel.value) else AllHaveMet(contenders, matches)
  {
    var contenders := Contenders(entries);
    for i := 0 to |contenders|
      invariant forall k, l :: 0 <= k < i && k < l < |contenders| ==> HaveMet(contenders, matches, k, l)
    {
      for j := i + 1 to |contenders|
        invariant forall l :: i < l < j ==> HaveMet(contenders, matches, i, l)
      {
        if Pair(contenders[i].hotkey, contenders[j].hotkey) !in matches {
          duel := Some(Pair(contenders[i].hotkey, contenders[j].hotkey));
          assert FirstUnmet(contenders, matches, i, j, duel.value);
          assert IsFirstUnmet(contenders, matches, duel.value);
          return;
        }
      }
    }
    duel := None;
  }

  // ---------------------------------------------------------------- what the entries say

  /** After the first so many entries this competitor holds the lead: it won the last duel that was won so far. */
  ghost predicate HoldsLead(entries: seq<Entry>, count: nat, h: Hotkey)
    requires count <= |entries|
  {
    if forall j :: 0 <= j < count ==> entries[j].status != Won then h == LEADER
    else
      exists i :: 0 <= i < count && entries[i].status == Won && entries[i].hotkey == h
                  && forall j :: i < j < count ==> entries[j].status != Won
  }

  predicate FailedCheck(c: Cache, h: Hotkey) {
    || (h in c.validations && c.validations[h].verdict == Failed)
    || (h in c.audits && c.audits[h].verdict == Failed)
  }

  /** An entry names who held the lead before it and has the one status that its checks and its duel call for. */
  ghost predicate EntryIsRight(c: Cache, entries: seq<Entry>, k: nat)
    requires k < |entries|
  {
    var e, duel := entries[k], Pair(entries[k].defender, entries[k].hotkey);
    && HoldsLead(entries, k, e.defender)
    && (e.status == Rejected <==> FailedCheck(c, e.hotkey))
    && (e.status == Pending <==> !FailedCheck(c, e.hotkey) && duel !in c.matches)
    && (e.status == Lost <==> !FailedCheck(c, e.hotkey) && duel in c.matches && c.matches[duel] < c.winMargin)
    && (e.status == Won <==> !FailedCheck(c, e.hotkey) && duel in c.matches && c.matches[duel] >= c.winMargin)
    && (if e.status in {Won, Lost} then e.margin == Some(c.matches[duel]) else e.margin.None?)
    && (e.verified <==> && e.status == Won && PassedBoth(c, e.hotkey)
                        && forall j :: 0 <= j < k && entries[j].status == Won ==> entries[j].verified)
    && (e.reason.Some? <==> e.status == Rejected)
  }

  /** The candidates that beat the leader by the margin, in the order of their submission. */
  function QualifiedOf(c: Cache, hotkeys: seq<Hotkey>): seq<Hotkey> {
    if hotkeys == [] then []
    else
      var rest, h := QualifiedOf(c, hotkeys[..|hotkeys| - 1]), hotkeys[|hotkeys| - 1];
      if Qualified(c, h) then rest + [h] else rest
  }

  ghost predicate IsTimeline(c: Cache, hotkeys: seq<Hotkey>, entries: seq<Entry>) {
    && |entries| == |QualifiedOf(c, hotkeys)|
    && forall k :: 0 <= k < |entries| ==> entries[k].hotkey == QualifiedOf(c, hotkeys)[k] && EntryIsRight(c, entries, k)
  }

  /** The derived entries are those of the qualified candidates, each with its right status; the defender holds the lead. */
  lemma {:induction false} DerivedIsTimeline(c: Cache, hotkeys: seq<Hotkey>)
    ensures IsTimeline(c, hotkeys, Entries(c, hotkeys))
    ensures var s := Standings(c, hotkeys);
            && HoldsLead(s.entries, |s.entries|, s.defender)
            && (s.verified <==> forall j :: 0 <= j < |s.entries| && s.entries[j].status == Won ==> s.entries[j].verified)
  {
    if hotkeys != [] {
      var n := |hotkeys| - 1;
      DerivedIsTimeline(c, hotkeys[..n]);
      var s, h := Standings(c, hotkeys[..n]), hotkeys[n];
      if Qualified(c, h) { TimelineGrows(c, s, h); }
      hide EntryIsRight, HoldsLead, Qualified, Outcome;
    }
  }

  lemma TimelineGrows(c: Cache, s: Standing, h: Hotkey)
    requires Qualified(c, h) && HoldsLead(s.entries, |s.entries|, s.defender)
    requires s.verified <==> forall j :: 0 <= j < |s.entries| && s.entries[j].status == Won ==> s.entries[j].verified
    requires forall k :: 0 <= k < |s.entries| ==> EntryIsRight(c, s.entries, k)
    ensures var t := Meet(c, s, h);
            && t.entries == s.entries + [Outcome(c, s, h)] && Outcome(c, s, h).hotkey == h
            && HoldsLead(t.entries, |t.entries|, t.defender)
            && (t.verified <==> forall j :: 0 <= j < |t.entries| && t.entries[j].status == Won ==> t.entries[j].verified)
            && forall k :: 0 <= k < |t.entries| ==> EntryIsRight(c, t.entries, k)
  {
    var e := Outcome(c, s, h);
    var longer := s.entries + [e];
    OutcomeIsRight(c, s, h);
    OutcomeIsOf(c, s, h);
    LeadMoves(s.entries, e, s.defender);
    hide EntryIsRight, HoldsLead, Qualified, Outcome;
    forall k | 0 <= k < |s.entries| ensures EntryIsRight(c, longer, k) {
      EntryStaysRight(c, s.entries, e, k);
    }
    assert longer[|s.entries|] == e && forall j :: 0 <= j < |s.entries| ==> longer[j] == s.entries[j];
  }

  lemma OutcomeIsOf(c: Cache, s: Standing, h: Hotkey)
    ensures Outcome(c, s, h).hotkey == h
    ensures Outcome(c, s, h).verified ==> s.verified
  {
  }

  lemma EntryStaysRight(c: Cache, entries: seq<Entry>, e: Entry, k: nat)
    requires k < |entries| && EntryIsRight(c, entries, k)
    ensures EntryIsRight(c, entries + [e], k)
  {
    LeadOfPrefix(entries, e, k, entries[k].defender);
    assert forall j :: 0 <= j <= k ==> (entries + [e])[j] == entries[j];
    hide HoldsLead;
  }

  lemma LeadOfPrefix(entries: seq<Entry>, e: Entry, count: nat, h: Hotkey)
    requires count <= |entries| && HoldsLead(entries, count, h)
    ensures HoldsLead(entries + [e], count, h)
  {
    assert forall j :: 0 <= j < count ==> (entries + [e])[j] == entries[j];
  }

  /** Whoever wins takes the lead. */
  lemma LeadMoves(entries: seq<Entry>, e: Entry, h: Hotkey)
    requires HoldsLead(entries, |entries|, h)
    ensures HoldsLead(entries + [e], |entries| + 1, if e.status == Won then e.hotkey else h)
  {
    var longer := entries + [e];
    assert longer[|entries|] == e && forall j :: 0 <= j < |entries| ==> longer[j] == entries[j];
  }

  lemma OutcomeIsRight(c: Cache, s: Standing, h: Hotkey)
    requires HoldsLead(s.entries, |s.entries|, s.defender)
    requires s.verified <==> forall j :: 0 <= j < |s.entries| && s.entries[j].status == Won ==> s.entries[j].verified
    ensures EntryIsRight(c, s.entries + [Outcome(c, s, h)], |s.entries|)
  {
    var e := Outcome(c, s, h);
    var longer := s.entries + [e];
    LeadOfPrefix(s.entries, e, |s.entries|, s.defender);
    assert longer[|s.entries|] == e && forall j :: 0 <= j < |s.entries| ==> longer[j] == s.entries[j];
    assert Reason(c, h).Some? <==> FailedCheck(c, h);
    hide HoldsLead;
  }

  /** A failed validation is the reason before a failed audit; the text of an audit is cut after 64 characters. */
  lemma ReasonMeans(c: Cache, h: Hotkey)
    ensures Reason(c, h).Some? <==> FailedCheck(c, h)
    ensures h in c.validations && c.validations[h].verdict == Failed ==>
              Reason(c, h) == Some("validation: " + c.validations[h].reason)
    ensures FailedCheck(c, h) && !(h in c.validations && c.validations[h].verdict == Failed) ==>
              var text := c.audits[h].reason;
              Reason(c, h) == Some(if text == "" then "source audit"
                                   else "source audit: " + if |text| <= 64 then text else text[..64])
  {
    if h in c.audits {
      var cut := Truncated(c.audits[h].reason);
      assert "source audit" + (": " + cut) == "source audit: " + cut;
      assert "source audit" + "" == "source audit";
      assert |c.audits[h].reason| == 64 ==> c.audits[h].reason[..64] == c.audits[h].reason;
    }
  }

  /** The winner holds the lead after all entries. */
  lemma WinnerHoldsLead(entries: seq<Entry>)
    ensures HoldsLead(entries, |entries|, Winner(entries))
  {
    LeadersAreWon(entries);
    if Leaders(entries) != [] { LastLeader(entries); }
    assert forall j :: 0 <= j < |entries| ==> entries[j] in entries;
  }

  lemma {:induction false} LastLeader(entries: seq<Entry>)
    requires Leaders(entries) != []
    ensures var leaders := Leaders(entries);
            exists i :: 0 <= i < |entries| && entries[i] == leaders[|leaders| - 1] && entries[i].status == Won
                        && forall j :: i < j < |entries| ==> entries[j].status != Won
  {
    var n := |entries| - 1;
    if entries[n].status != Won {
      LastLeader(entries[..n]);
    }
  }

  /** Only one competitor holds the lead. */
  lemma LeadIsOne(entries: seq<Entry>, count: nat, g: Hotkey, h: Hotkey)
    requires count <= |entries| && HoldsLead(entries, count, g) && HoldsLead(entries, count, h)
    ensures g == h
  {
  }

  // ---------------------------------------------------------------- rejected candidates do not interfere

  function WithoutRejected(c: Cache, hotkeys: seq<Hotkey>): seq<Hotkey> {
    if hotkeys == [] then []
    else
      var rest, h := WithoutRejected(c, hotkeys[..|hotkeys| - 1]), hotkeys[|hotkeys| - 1];
      if Reason(c, h).None? then rest + [h] else rest
  }

  /** The round goes on as if rejected candidates had never been submitted. */
  lemma {:induction false} RejectedDoNotInterfere(c: Cache, hotkeys: seq<Hotkey>)
    ensures var all, without := Standings(c, hotkeys), Standings(c, WithoutRejected(c, hotkeys));
            && Contenders(all.entries) == without.entries
            && all.defender == without.defender && all.verified == without.verified
    ensures Leaders(Entries(c, hotkeys)) == Leaders(Entries(c, WithoutRejected(c, hotkeys)))
  {
    if hotkeys != [] {
      var n := |hotkeys| - 1;
      RejectedDoNotInterfere(c, hotkeys[..n]);
      var s, fewer := Standings(c, hotkeys[..n]), WithoutRejected(c, hotkeys[..n]);
      assert (fewer + [hotkeys[n]])[..|fewer|] == fewer;
      MeetIgnoresRejected(c, s, Standings(c, fewer), hotkeys[n]);
    }
  }

  lemma MeetIgnoresRejected(c: Cache, s: Standing, t: Standing, hotkey: Hotkey)
    requires Contenders(s.entries) == t.entries && s.defender == t.defender && s.verified == t.verified
    requires Leaders(s.entries) == Leaders(t.entries)
    ensures var all, without := Meet(c, s, hotkey), if Reason(c, hotkey).None? then Meet(c, t, hotkey) else t;
            && Contenders(all.entries) == without.entries && Leaders(all.entries) == Leaders(without.entries)
            && all.defender == without.defender && all.verified == without.verified
  {
    var e := Outcome(c, s, hotkey);
    assert Outcome(c, t, hotkey) == e && (e.status == Rejected <==> Reason(c, hotkey).Some?);
    AddedEntry(s.entries, e);
    AddedEntry(t.entries, e);
    hide Qualified, Reason, Outcome, Contenders, Leaders;
  }

  lemma AddedEntry(entries: seq<Entry>, e: Entry)
    ensures Contenders(entries + [e]) == if e.status != Rejected then Contenders(entries) + [e] else Contenders(entries)
    ensures Leaders(entries + [e]) == if e.status == Won then Leaders(entries) + [e] else Leaders(entries)
    ensures Finalized(entries + [e]) <==> Finalized(entries) && e.status != Pending && (e.status == Won ==> e.verified)
  {
    var longer := entries + [e];
    assert longer[..|entries|] == entries && longer[|entries|] == e;
    assert forall i :: 0 <= i < |entries| ==> longer[i] == entries[i];
  }

  // ---------------------------------------------------------------- the chain of leaders

  /** Each leader took the lead from the leader before it by the required margin, and is verified exactly when it
    * and all leaders before it have passed both checks.
    */
  predicate IsChain(c: Cache, leaders: seq<Entry>) {
    forall i :: 0 <= i < |leaders| ==> IsLink(c, leaders, i)
  }

  predicate IsLink(c: Cache, leaders: seq<Entry>, i: nat)
    requires i < |leaders|
  {
    var e, previous := leaders[i], if i == 0 then LEADER else leaders[i - 1].hotkey;
    && e.status == Won && e.defender == previous && Reason(c, e.hotkey).None? && Qualified(c, e.hotkey)
    && Pair(previous, e.hotkey) in c.matches && c.matches[Pair(previous, e.hotkey)] >= c.winMargin
    && e.margin == Some(c.matches[Pair(previous, e.hotkey)])
    && (e.verified <==> forall k :: 0 <= k <= i ==> PassedBoth(c, leaders[k].hotkey))
  }

  /** The defender is the last leader. */
  predicate Tracks(s: Standing) {
    var leaders := Leaders(s.entries);
    if leaders == [] then s.defender == LEADER && s.verified
    else
      var last := leaders[|leaders| - 1];
      s.defender == last.hotkey && s.verified == last.verified
  }

  lemma {:induction false} LeadersAreChain(c: Cache, hotkeys: seq<Hotkey>)
    ensures IsChain(c, Leaders(Entries(c, hotkeys))) && Tracks(Standings(c, hotkeys))
  {
    if hotkeys != [] {
      var n := |hotkeys| - 1;
      LeadersAreChain(c, hotkeys[..n]);
      var s, h := Standings(c, hotkeys[..n]), hotkeys[n];
      var e, leaders := Outcome(c, s, h), Leaders(s.entries);
      assert (s.entries + [e])[..|s.entries|] == s.entries;
      if Qualified(c, h) && e.status == Won {
        ChainExtends(c, s, h);
      }
    }
  }

  lemma ChainExtends(c: Cache, s: Standing, h: Hotkey)
    requires IsChain(c, Leaders(s.entries)) && Tracks(s)
    requires Qualified(c, h) && Outcome(c, s, h).status == Won
    ensures IsChain(c, Leaders(s.entries) + [Outcome(c, s, h)])
  {
    hide Qualified, PassedBoth, Reason;
    var leaders, e := Leaders(s.entries), Outcome(c, s, h);
    var longer := leaders + [e];
    forall i | 0 <= i < |leaders| ensures IsLink(c, longer, i) {
      assert IsLink(c, leaders, i);
      assert forall k :: 0 <= k <= i ==> longer[k] == leaders[k];
    }
    if leaders != [] { assert IsLink(c, leaders, |leaders| - 1); }
    assert forall k :: 0 <= k < |leaders| ==> longer[k] == leaders[k];
    assert s.verified <==> forall k :: 0 <= k < |leaders| ==> PassedBoth(c, leaders[k].hotkey);
    assert IsLink(c, longer, |leaders|);
  }

  /** Verification is closed under going back along the chain, so only the last leader needs to be looked at. */
  lemma FinalizedIffLastVerified(c: Cache, hotkeys: seq<Hotkey>)
    ensures var entries := Entries(c, hotkeys);
            var leaders := Leaders(entries);
            Finalized(entries) <==> NonePending(entries) && (leaders == [] || leaders[|leaders| - 1].verified)
    ensures var leaders := Leaders(Entries(c, hotkeys));
            forall i, k :: 0 <= i <= k < |leaders| && leaders[k].verified ==> leaders[i].verified
  {
    var entries := Entries(c, hotkeys);
    LeadersAreChain(c, hotkeys);
    LeadersAreWon(entries);
    var leaders := Leaders(entries);
    forall i, k | 0 <= i <= k < |leaders| && leaders[k].verified ensures leaders[i].verified {
      assert IsLink(c, leaders, i) && IsLink(c, leaders, k);
    }
  }

  /** Only a competitor that passed both checks can win a finalized round, and so did everyone it had to beat. */
  lemma FinalizedLeadersPassed(c: Cache, hotkeys: seq<Hotkey>)
    requires Finalized(Entries(c, hotkeys))
    ensures forall e :: e in Leaders(Entries(c, hotkeys)) ==> PassedBoth(c, e.hotkey)
    ensures Winner(Entries(c, hotkeys)) == LEADER || PassedBoth(c, Winner(Entries(c, hotkeys)))
    ensures Winner(Entries(c, hotkeys)) == Standings(c, hotkeys).defender
  {
    var leaders := Leaders(Entries(c, hotkeys));
    LeadersAreChain(c, hotkeys);
    FinalizedIffLastVerified(c, hotkeys);
    if leaders != [] { assert IsLink(c, leaders, |leaders| - 1); }
  }

  lemma {:induction false} LeadersAreWon(entries: seq<Entry>)
    ensures forall e :: e in Leaders(entries) <==> e in entries && e.status == Won
  {
    if entries != [] {
      LeadersAreWon(entries[..|entries| - 1]);
      assert entries == entries[..|entries| - 1] + [entries[|entries| - 1]];
    }
  }

  // ---------------------------------------------------------------- a finalized round stays finalized

  /** The later cache keeps every match and verdict of the earlier one. */
  predicate Extends(later: Cache, earlier: Cache) {
    && later.winMargin == earlier.winMargin
    && (forall k :: k in earlier.matches ==> k in later.matches && later.matches[k] == earlier.matches[k])
    && (forall h :: h in earlier.validations ==> h in later.validations && later.validations[h] == earlier.validations[h])
    && (forall h :: h in earlier.audits ==> h in later.audits && later.audits[h] == earlier.audits[h])
  }

  /** Nothing that arrives later can bring the candidate at this place into the chain. */
  predicate SettledAt(c: Cache, hotkeys: seq<Hotkey>, i: nat)
    requires i < |hotkeys|
  {
    var h, duel := hotkeys[i], Pair(Standings(c, hotkeys[..i]).defender, hotkeys[i]);
    || Reason(c, h).Some?
    || Pair(LEADER, h) in c.matches
    || (duel in c.matches && c.matches[duel] < c.winMargin)
  }

  predicate AllSettled(c: Cache, hotkeys: seq<Hotkey>) {
    forall i :: 0 <= i < |hotkeys| ==> SettledAt(c, hotkeys, i)
  }

  lemma FinalizedPrefix(c: Cache, hotkeys: seq<Hotkey>)
    requires hotkeys != [] && Finalized(Entries(c, hotkeys))
    ensures Finalized(Entries(c, hotkeys[..|hotkeys| - 1]))
  {
    var s := Standings(c, hotkeys[..|hotkeys| - 1]);
    var longer := Entries(c, hotkeys);
    assert forall i :: 0 <= i < |s.entries| ==> longer[i] == s.entries[i];
  }

  lemma SettledPrefix(c: Cache, hotkeys: seq<Hotkey>)
    requires hotkeys != [] && AllSettled(c, hotkeys)
    ensures AllSettled(c, hotkeys[..|hotkeys| - 1])
  {
    var fewer := hotkeys[..|hotkeys| - 1];
    forall i | 0 <= i < |fewer| ensures SettledAt(c, fewer, i) {
      assert SettledAt(c, hotkeys, i) && fewer[..i] == hotkeys[..i];
    }
  }

  /** The result of a finalized round whose candidates are all settled never changes again. */
  lemma {:induction false} FinalizedIsStable(c: Cache, later: Cache, hotkeys: seq<Hotkey>)
    requires Extends(later, c) && Finalized(Entries(c, hotkeys)) && AllSettled(c, hotkeys)
    ensures Finalized(Entries(later, hotkeys))
    ensures Leaders(Entries(later, hotkeys)) == Leaders(Entries(c, hotkeys))
    ensures Standings(later, hotkeys).defender == Standings(c, hotkeys).defender
    ensures Standings(later, hotkeys).verified && Standings(c, hotkeys).verified
  {
    if hotkeys != [] {
      var n := |hotkeys| - 1;
      FinalizedPrefix(c, hotkeys);
      SettledPrefix(c, hotkeys);
      FinalizedIsStable(c, later, hotkeys[..n]);
      StableStep(c, later, hotkeys);
    }
  }

  lemma StableStep(c: Cache, later: Cache, hotkeys: seq<Hotkey>)
    requires hotkeys != [] && Extends(later, c) && Finalized(Entries(c, hotkeys)) && AllSettled(c, hotkeys)
    requires var fewer := hotkeys[..|hotkeys| - 1];
             var s, t := Standings(c, fewer), Standings(later, fewer);
             && Finalized(t.entries) && Leaders(t.entries) == Leaders(s.entries)
             && t.defender == s.defender && t.verified && s.verified
    ensures Finalized(Entries(later, hotkeys))
    ensures Leaders(Entries(later, hotkeys)) == Leaders(Entries(c, hotkeys))
    ensures Standings(later, hotkeys).defender == Standings(c, hotkeys).defender
    ensures Standings(later, hotkeys).verified && Standings(c, hotkeys).verified
  {
    var fewer, h := hotkeys[..|hotkeys| - 1], hotkeys[|hotkeys| - 1];
    var s, t := Standings(c, fewer), Standings(later, fewer);
    assert SettledAt(c, hotkeys, |hotkeys| - 1);
    MeetIsStable(c, later, s, t, h);
    hide Meet, Finalized, Leaders, SettledAt;
  }

  /** One settled candidate has the same effect on the chain later. */
  lemma MeetIsStable(c: Cache, later: Cache, s: Standing, t: Standing, h: Hotkey)
    requires Extends(later, c) && Finalized(Meet(c, s, h).entries)
    requires Finalized(t.entries) && Leaders(t.entries) == Leaders(s.entries) && t.defender == s.defender
    requires t.verified && s.verified
    requires var duel := Pair(s.defender, h);
             Reason(c, h).Some? || Pair(LEADER, h) in c.matches || (duel in c.matches && c.matches[duel] < c.winMargin)
    ensures var m, n := Meet(c, s, h), Meet(later, t, h);
            && Finalized(n.entries) && Leaders(n.entries) == Leaders(m.entries)
            && n.defender == m.defender && n.verified && m.verified
  {
    hide Finalized, Leaders, Outcome, Qualified, Extends, Reason;
    var e, f := Outcome(c, s, h), Outcome(later, t, h);
    AddedEntry(s.entries, e);
    AddedEntry(t.entries, f);
    OutcomeIsStable(c, later, s, t, h);
  }

  /** A verified leader stays one; anyone else stays out of the chain. */
  lemma OutcomeIsStable(c: Cache, later: Cache, s: Standing, t: Standing, h: Hotkey)
    requires Extends(later, c) && t.defender == s.defender && t.verified && s.verified
    requires var duel := Pair(s.defender, h);
             Reason(c, h).Some? || Pair(LEADER, h) in c.matches || (duel in c.matches && c.matches[duel] < c.winMargin)
    ensures var e, f := Outcome(c, s, h), Outcome(later, t, h);
            && (Qualified(c, h) ==> Qualified(later, h))
            && (Qualified(c, h) && e.status == Won && e.verified ==> f == e)
            && (Qualified(later, h) && !(Qualified(c, h) && (e.status == Pending || e.status == Won)) ==>
                  f.status == Rejected || f.status == Lost)
  {
    assert Reason(c, h).Some? ==> Reason(later, h).Some?;
    assert PassedBoth(c, h) ==> PassedBoth(later, h) && Reason(later, h).None?;
    hide Reason, PassedBoth;
  }

  lemma {:induction false} EntriesGrow(c: Cache, hotkeys: seq<Hotkey>, n: nat)
    requires n <= |hotkeys|
    ensures Entries(c, hotkeys[..n]) <= Entries(c, hotkeys)
  {
    if n < |hotkeys| {
      var fewer := hotkeys[..|hotkeys| - 1];
      assert fewer[..n] == hotkeys[..n];
      EntriesGrow(c, fewer, n);
    } else {
      assert hotkeys[..n] == hotkeys;
    }
  }

  lemma {:induction false} EntriesAreQualified(c: Cache, hotkeys: seq<Hotkey>)
    ensures forall e :: e in Entries(c, hotkeys) ==> Qualified(c, e.hotkey)
  {
    if hotkeys != [] { EntriesAreQualified(c, hotkeys[..|hotkeys| - 1]); }
  }

  /** A candidate that is not settled enters a finalized round when its match against the leader arrives. */
  lemma UnsettledIsUnstable(c: Cache, hotkeys: seq<Hotkey>) returns (later: Cache)
    requires Finalized(Entries(c, hotkeys)) && !AllSettled(c, hotkeys)
    ensures Extends(later, c)
    ensures Finalized(Entries(later, hotkeys)) ==> Leaders(Entries(later, hotkeys)) != Leaders(Entries(c, hotkeys))
  {
    var i := FirstUnsettled(c, hotkeys);
    var h, before := hotkeys[i], hotkeys[..i];
    later := c.(matches := c.matches[Pair(LEADER, h) := c.winMargin]);
    EntriesGrow(c, hotkeys, i);
    assert Finalized(Entries(c, before)) by {
      assert forall k :: 0 <= k < |Entries(c, before)| ==> Entries(c, before)[k] == Entries(c, hotkeys)[k];
    }
    FinalizedIsStable(c, later, before);
    var s, e := Standings(later, before), Outcome(later, Standings(later, before), h);
    assert !SettledAt(c, hotkeys, i);
    assert hotkeys[..i + 1][..i] == before;
    assert Entries(later, hotkeys[..i + 1]) == s.entries + [e];
    EntriesGrow(later, hotkeys, i + 1);
    assert Entries(later, hotkeys)[|s.entries|] == e;
    EntriesAreQualified(c, hotkeys);
    LeadersAreWon(Entries(c, hotkeys));
    LeadersAreWon(Entries(later, hotkeys));
    assert e.status == Pending || e.status == Won;
    assert e.status == Won ==> e in Leaders(Entries(later, hotkeys));
  }

  lemma FirstUnsettled(c: Cache, hotkeys: seq<Hotkey>) returns (i: nat)
    requires !AllSettled(c, hotkeys)
    ensures i < |hotkeys| && !SettledAt(c, hotkeys, i) && AllSettled(c, hotkeys[..i])
  {
    i := 0;
    while i < |hotkeys| && SettledAt(c, hotkeys, i)
      invariant i <= |hotkeys| && forall k :: 0 <= k < i ==> SettledAt(c, hotkeys, k)
    {
      i := i + 1;
    }
    assert i < |hotkeys|;
    forall k | 0 <= k < i ensures SettledAt(c, hotkeys[..i], k) {
      assert SettledAt(c, hotkeys, k) && hotkeys[..i][..k] == hotkeys[..k];
    }
  }

  /** No later cache changes the outcome. */
  ghost predicate NeverChanges(c: Cache, hotkeys: seq<Hotkey>) {
    forall later: Cache :: Extends(later, c) ==>
      Finalized(Entries(later, hotkeys)) && Leaders(Entries(later, hotkeys)) == Leaders(Entries(c, hotkeys))
  }

  /** A finalized round keeps its chain and its winner whatever arrives later, if and only if every candidate is
    * settled; that every candidate that is not rejected has met the leader is enough.
    */
  lemma StableIffSettled(c: Cache, hotkeys: seq<Hotkey>)
    requires Finalized(Entries(c, hotkeys))
    ensures NeverChanges(c, hotkeys) <==> AllSettled(c, hotkeys)
    ensures (forall h :: h in hotkeys ==> Reason(c, h).Some? || Pair(LEADER, h) in c.matches) ==> NeverChanges(c, hotkeys)
  {
    hide Finalized;
    if AllSettled(c, hotkeys) {
      forall later: Cache | Extends(later, c)
        ensures Finalized(Entries(later, hotkeys)) && Leaders(Entries(later, hotkeys)) == Leaders(Entries(c, hotkeys))
      {
        FinalizedIsStable(c, later, hotkeys);
      }
    } else {
      var later := UnsettledIsUnstable(c, hotkeys);
    }
  }

  /** A round without any cached match is finalized for the leader, and not so any more once a match arrives. */
  lemma EarlyFinalizationIsUnstable()
    ensures var c, later := Cache(map[], 0.1, map[], map[]), Cache(map[Pair(LEADER, "a") := 0.5], 0.1, map[], map[]);
            && Extends(later, c) && Finalized(Entries(c, ["a"])) && Winner(Entries(c, ["a"])) == LEADER
            && !Finalized(Entries(later, ["a"])) && Winner(Entries(later, ["a"])) == "a"
  {
    var c, later := Cache(map[], 0.1, map[], map[]), Cache(map[Pair(LEADER, "a") := 0.5], 0.1, map[], map[]);
    assert ["a"][..0] == [];
    assert Entries(c, ["a"]) == [];
    var start := Standing([], LEADER, true);
    assert Standings(later, ["a"]) == Meet(later, start, "a");
    assert Qualified(later, "a") && Lookup(later.matches, Pair(LEADER, "a")) == Some(0.5);
    assert Outcome(later, start, "a") == Entry("a", Won, LEADER, Some(0.5), false, None);
    assert Entries(later, ["a"]) == [Entry("a", Won, LEADER, Some(0.5), false, None)];
    var entries := [Entry("a", Won, LEADER, Some(0.5), false, None)];
    assert entries[..0] == [] && Leaders(entries) == [entries[0]];
    assert entries[0].status == Won && !entries[0].verified;
  }
}
