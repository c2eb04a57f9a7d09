/** Visibility rules, their three lists, and how a list decides about one candidate. */
module Policy {
  import opened Options
  import opened SocialModel
  import opened FeedTypes
  import opened Tasks

  const ADULT_AGE: int := 18
  const MAX_AGE_HOURS: int := 48

  datatype Verdict = Allow | Drop | Interstitial

  /** The moment of a request, in seconds and as a date, and the lower-casing of text, which is left to the caller. */
  datatype Env = Env(now: int, today: Date, lower: string -> string)

  /** What a rule looks at. */
  datatype Context = Context(query: FeedQuery, candidate: Candidate, env: Env)

  datatype Rule =
    | HiddenPostRule | AgeRule | BlockedAuthorRule | MutedAuthorRule | MutedKeywordRule | SuspendedAuthorRule
    | PrivateAccountRule | FollowersOnlyPostRule | OonReplyRule | OonAmplificationRule | ReplyAncillaryRule
    | ViewerAgeGateRule | SensitiveInterstitialRule

  const HOME: seq<Rule> := [
    HiddenPostRule, AgeRule, BlockedAuthorRule, MutedAuthorRule, MutedKeywordRule, SuspendedAuthorRule,
    PrivateAccountRule, FollowersOnlyPostRule, OonReplyRule, OonAmplificationRule, ReplyAncillaryRule,
    ViewerAgeGateRule, SensitiveInterstitialRule]

  const FOLLOWING: seq<Rule> := [
    HiddenPostRule, BlockedAuthorRule, MutedAuthorRule, MutedKeywordRule, SuspendedAuthorRule, PrivateAccountRule,
    FollowersOnlyPostRule, ReplyAncillaryRule, ViewerAgeGateRule, SensitiveInterstitialRule]

  const THREAD: seq<Rule> := [
    BlockedAuthorRule, MutedAuthorRule, MutedKeywordRule, SuspendedAuthorRule, PrivateAccountRule,
    FollowersOnlyPostRule, ViewerAgeGateRule, SensitiveInterstitialRule]

  // ----- Age

  function AgeYears(birth: Date, today: Date): int {
    var years := today.year - birth.year;
    if today.month < birth.month || (today.month == birth.month && today.day < birth.day) then years - 1 else years
  }

  /** Viewers without a birthdate count as adults. */
  predicate IsAdult(birthdate: Option<Date>, today: Date) {
    birthdate.None? || AgeYears(birthdate.value, today) >= ADULT_AGE
  }

  predicate OnOrBefore(a: Date, b: Date) {
    a.year < b.year || (a.year == b.year && (a.month < b.month || (a.month == b.month && a.day <= b.day)))
  }

  /** Adulthood starts on the eighteenth birthday. */
  lemma AdultFromBirthday(birth: Date, today: Date)
    ensures IsAdult(Some(birth), today) <==> OnOrBefore(birth.(year := birth.year + ADULT_AGE), today)
  {
  }

  // ----- The rules

  predicate IsNsfw(c: Candidate) {
    Nsfw in c.Labels()
  }

  predicate LimitsAmplification(c: Candidate) {
    Nsfw in c.Labels() || DoNotAmplify in c.Labels() || SpamSuspect in c.Labels()
  }

  function DropIf(b: bool): Verdict {
    if b then Drop else Allow
  }

  /** Some muted keyword occurs in the lower-cased body. */
  predicate MutedByKeyword(keywords: set<string>, lowered: string) {
    exists k :: k in keywords && k != "" && Contains(lowered, k)
  }

  /** A reply whose parent the viewer could not see. */
  predicate ParentHidden(q: FeedQuery, parent: Parent) {
    || parent.missing || parent.author.None?
    || parent.author.value in q.blocked
    || parent.author.value in q.muted
    || parent.suspended
    || (&& parent.author.value != q.viewer
        && (parent.isPrivate || parent.visibility == FollowersOnly)
        && parent.author.value !in q.following)
  }

  function Evaluate(rule: Rule, x: Context): Verdict {
    var (q, c) := (x.query, x.candidate);
    match rule
    case HiddenPostRule => DropIf(c.id in q.hidden)
    case AgeRule => DropIf(x.env.now - c.createdAt > MAX_AGE_HOURS * 3600)
    case BlockedAuthorRule => DropIf(c.author in q.blocked)
    case MutedAuthorRule => DropIf(c.author in q.muted)
    case MutedKeywordRule => DropIf(MutedByKeyword(q.mutedKeywords, x.env.lower(c.body)))
    case SuspendedAuthorRule => DropIf(c.authorInfo.suspended)
    case PrivateAccountRule => DropIf(c.author != q.viewer && c.authorInfo.isPrivate && c.author !in q.following)
    case FollowersOnlyPostRule =>
      DropIf(c.visibility == FollowersOnly && c.author != q.viewer && c.author !in q.following)
    case OonReplyRule => DropIf(c.parent.Some? && c.source == Oon)
    case OonAmplificationRule => DropIf(c.source == Oon && LimitsAmplification(c))
    case ReplyAncillaryRule => DropIf(c.parent.Some? && ParentHidden(q, c.parentInfo))
    case ViewerAgeGateRule => DropIf(IsNsfw(c) && !IsAdult(q.birthdate, x.env.today))
    case SensitiveInterstitialRule =>
      if IsNsfw(c) && IsAdult(q.birthdate, x.env.today) && c.source != Oon then Interstitial else Allow
  }

  // ----- A list of rules

  /** What a list of rules decides: one drop drops, otherwise one interstitial covers. */
  function Decide(rules: seq<Rule>, x: Context): Verdict {
    if exists r :: r in rules && Evaluate(r, x) == Drop then Drop
    else if exists r :: r in rules && Evaluate(r, x) == Interstitial then Interstitial
    else Allow
  }

  /** The first rule with a verdict. */
  ghost predicate FirstWith(rules: seq<Rule>, x: Context, verdict: Verdict, name: Option<Rule>) {
    exists i :: 0 <= i < |rules| && name == Some(rules[i]) && Evaluate(rules[i], x) == verdict
      && forall j :: 0 <= j < i ==> Evaluate(rules[j], x) != verdict
  }

  method EvaluateRules(rules: seq<Rule>, x: Context) returns (verdict: Verdict, name: Option<Rule>)
    ensures verdict == Decide(rules, x)
    ensures if verdict == Allow then name == None else FirstWith(rules, x, verdict, name)
  {
    var interstitialFrom: Option<Rule> := None;
    for i := 0 to |rules|
      invariant forall j :: 0 <= j < i ==> Evaluate(rules[j], x) != Drop
      invariant interstitialFrom.None? ==> forall j :: 0 <= j < i ==> Evaluate(rules[j], x) == Allow
      invariant interstitialFrom.Some? ==> FirstWith(rules, x, Interstitial, interstitialFrom)
    {
      var v := Evaluate(rules[i], x);
      if v == Drop {
        return Drop, Some(rules[i]);
      }
      if v == Interstitial && interstitialFrom.None? {
        interstitialFrom := Some(rules[i]);
      }
    }
    if interstitialFrom.Some? {
      return Interstitial, interstitialFrom;
    }
    return Allow, None;
  }

  /** The verdict depends on which rules are listed, not on their order or repetition. */
  lemma VerdictIgnoresOrder(a: seq<Rule>, b: seq<Rule>, x: Context)
    requires multiset(a) == multiset(b)
    ensures Decide(a, x) == Decide(b, x)
  {
    forall r: Rule
      ensures r in a <==> r in b
    {
      assert r in a <==> r in multiset(a);
    }
  }

  /** A list that contains `b` and otherwise only rules that never cover: when it does not drop, both agree. */
  lemma LargerListAgrees(a: seq<Rule>, b: seq<Rule>, x: Context)
    requires forall r :: r in b ==> r in a
    requires SensitiveInterstitialRule in b
    ensures Decide(a, x) != Drop ==> Decide(b, x) == Decide(a, x)
  {
    forall r: Rule | Evaluate(r, x) == Interstitial
      ensures r == SensitiveInterstitialRule
    {
    }
  }

  /** A post that survives on Home gets the same treatment on Following and in its thread. */
  lemma HomeVerdictCarriesOver(x: Context)
    ensures Decide(HOME, x) != Drop ==>
      Decide(FOLLOWING, x) == Decide(HOME, x) && Decide(THREAD, x) == Decide(HOME, x)
  {
    ListsNested();
    LargerListAgrees(HOME, FOLLOWING, x);
    LargerListAgrees(HOME, THREAD, x);
  }

  lemma ListsNested()
    ensures forall r :: r in THREAD ==> r in FOLLOWING
    ensures forall r :: r in FOLLOWING ==> r in HOME
    ensures ViewerAgeGateRule in THREAD && SensitiveInterstitialRule in THREAD && OonAmplificationRule in HOME
  {
    assert THREAD[6] == ViewerAgeGateRule && THREAD[7] == SensitiveInterstitialRule && HOME[9] == OonAmplificationRule;
    assert FOLLOWING[0] == HiddenPostRule && FOLLOWING[7] == ReplyAncillaryRule;
    assert forall i :: 0 <= i < |THREAD| ==> THREAD[i] == FOLLOWING[if i < 6 then i + 1 else i + 2];
    assert forall i :: 0 <= i < |FOLLOWING| ==>
      FOLLOWING[i] == HOME[if i == 0 then 0 else if i < 7 then i + 1 else i + 3];
  }

  /** A list with both age rules lets an in-network NSFW candidate through only covered, and only to an adult. */
  lemma NsfwInNetwork(rules: seq<Rule>, x: Context)
    requires ViewerAgeGateRule in rules && SensitiveInterstitialRule in rules
    requires IsNsfw(x.candidate) && x.candidate.source != Oon && Decide(rules, x) != Drop
    ensures Decide(rules, x) == Interstitial && IsAdult(x.query.birthdate, x.env.today)
  {
    assert Evaluate(ViewerAgeGateRule, x) != Drop;
    assert Evaluate(SensitiveInterstitialRule, x) == Interstitial;
  }

  /** Home shows no out-of-network candidate that carries a label limiting amplification. */
  lemma HomeDropsLabeledOon(x: Context)
    requires x.candidate.source == Oon && LimitsAmplification(x.candidate)
    ensures Decide(HOME, x) == Drop
  {
    ListsNested();
    assert Evaluate(OonAmplificationRule, x) == Drop;
  }
}
