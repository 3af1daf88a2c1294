/**
 * The client's safety badge (`getSafetyBadge`): a three-tier keyword
 * classifier over the lower-cased warnings and side-effects text, where the
 * caution tier is tested before the moderate tier.
 */
module SafetyBadge {
  import opened Wrappers
  import opened Text
  import MedicineModel

  datatype Tier = Caution | Moderate | Safe

  /** What the page shows: the label (`caption`, since `label` is a Dafny keyword) and a CSS colour. */
  datatype Badge = Badge(caption: string, color: string)

  /** Keywords of the caution tier, in the order they are tested. */
  const CautionWords: seq<string> := ["death", "fatal", "life-threatening", "serious", "severe"]

  /** Keywords of the moderate tier, in the order they are tested. */
  const ModerateWords: seq<string> := ["consult", "avoid", "risk", "caution"]

  function BadgeOf(tier: Tier): Badge {
    match tier
    case Caution => Badge("\U{26A0}\U{FE0F} Use With Caution", "#ef4444")
    case Moderate => Badge("\U{1F7E1} Moderate Risk", "#f59e0b")
    case Safe => Badge("\U{1F7E2} Generally Safe", "#10b981")
  }

  /** The text the classifier reads: `(warnings || "") + " " + (sideEffects || "")`, lower-cased. */
  function BadgeText(warnings: Option<string>, sideEffects: Option<string>): string {
    LowerStr(warnings.GetOr("") + " " + sideEffects.GetOr(""))
  }

  /** The if/else-if chain of `getSafetyBadge`, keyword by keyword. */
  function Classify(text: string): Tier {
    if Contains(text, "death") || Contains(text, "fatal") || Contains(text, "life-threatening")
       || Contains(text, "serious") || Contains(text, "severe") then Caution
    else if Contains(text, "consult") || Contains(text, "avoid") || Contains(text, "risk")
       || Contains(text, "caution") then Moderate
    else Safe
  }

  /** `getSafetyBadge(data)`: always exactly one of the three badges. */
  function GetSafetyBadge(warnings: Option<string>, sideEffects: Option<string>): (b: Badge)
    ensures b == BadgeOf(Caution) || b == BadgeOf(Moderate) || b == BadgeOf(Safe)
    ensures b.color == "#ef4444" || b.color == "#f59e0b" || b.color == "#10b981"
  {
    BadgeOf(Classify(BadgeText(warnings, sideEffects)))
  }

  /** Some keyword of the list occurs in the text. */
  predicate MentionsAny(text: string, words: seq<string>) {
    exists i :: 0 <= i < |words| && Contains(text, words[i])
  }

  /** Distinct tiers give distinct badges, so the badge determines the tier. */
  lemma BadgeOfInjective(s: Tier, t: Tier)
    ensures BadgeOf(s) == BadgeOf(t) ==> s == t
  {
  }

  /**
   * The classification by tiers: caution exactly when a caution keyword
   * occurs (whatever else occurs), moderate exactly when no caution keyword
   * but a moderate one occurs, safe exactly when neither does.
   */
  lemma ClassifyByTiers(text: string)
    ensures Classify(text) == Caution <==> MentionsAny(text, CautionWords)
    ensures Classify(text) == Moderate <==> !MentionsAny(text, CautionWords) && MentionsAny(text, ModerateWords)
    ensures Classify(text) == Safe <==> !MentionsAny(text, CautionWords) && !MentionsAny(text, ModerateWords)
  {
    if MentionsAny(text, CautionWords) {
      var i :| 0 <= i < |CautionWords| && Contains(text, CautionWords[i]);
      assert i == 0 || i == 1 || i == 2 || i == 3 || i == 4;
    }
    if MentionsAny(text, ModerateWords) {
      var i :| 0 <= i < |ModerateWords| && Contains(text, ModerateWords[i]);
      assert i == 0 || i == 1 || i == 2 || i == 3;
    }
    if Contains(text, "death") { assert Contains(text, CautionWords[0]); }
    if Contains(text, "fatal") { assert Contains(text, CautionWords[1]); }
    if Contains(text, "life-threatening") { assert Contains(text, CautionWords[2]); }
    if Contains(text, "serious") { assert Contains(text, CautionWords[3]); }
    if Contains(text, "severe") { assert Contains(text, CautionWords[4]); }
    if Contains(text, "consult") { assert Contains(text, ModerateWords[0]); }
    if Contains(text, "avoid") { assert Contains(text, ModerateWords[1]); }
    if Contains(text, "risk") { assert Contains(text, ModerateWords[2]); }
    if Contains(text, "caution") { assert Contains(text, ModerateWords[3]); }
  }

  /** The badge of a record, by tiers of its warnings and side effects. */
  lemma SafetyBadgeByTiers(warnings: Option<string>, sideEffects: Option<string>)
    ensures var text := BadgeText(warnings, sideEffects);
      && (MentionsAny(text, CautionWords) ==> GetSafetyBadge(warnings, sideEffects) == BadgeOf(Caution))
      && (!MentionsAny(text, CautionWords) && MentionsAny(text, ModerateWords)
          ==> GetSafetyBadge(warnings, sideEffects) == BadgeOf(Moderate))
      && (!MentionsAny(text, CautionWords) && !MentionsAny(text, ModerateWords)
          ==> GetSafetyBadge(warnings, sideEffects) == BadgeOf(Safe))
  {
    ClassifyByTiers(BadgeText(warnings, sideEffects));
  }

  /** The sentinel lower-cased. */
  lemma SentinelLowered()
    ensures LowerStr(MedicineModel.NotAvailable) == "not available"
  {
  }

  /** The lower-cased sentinel lacks every letter that starts a keyword check. */
  lemma SentinelLetters()
    ensures var text := "not available";
      'd' !in text && 'f' !in text && 's' !in text && 'c' !in text && 'r' !in text
  {
  }

  /** A text lacking the letters d, f, s, c and r holds no keyword of either tier. */
  lemma SafeWithoutKeyLetters(text: string)
    requires 'd' !in text && 'f' !in text && 's' !in text && 'c' !in text && 'r' !in text
    ensures Classify(text) == Safe
  {
    ContainedCharOccurs(text, "death", 0);
    ContainedCharOccurs(text, "fatal", 0);
    ContainedCharOccurs(text, "life-threatening", 2);
    ContainedCharOccurs(text, "serious", 0);
    ContainedCharOccurs(text, "severe", 0);
    ContainedCharOccurs(text, "consult", 0);
    ContainedCharOccurs(text, "avoid", 4);
    ContainedCharOccurs(text, "risk", 0);
    ContainedCharOccurs(text, "caution", 0);
  }

  /** A record whose warnings and side effects are both the sentinel is generally safe. */
  lemma SentinelFieldsAreSafe()
    ensures GetSafetyBadge(Some(MedicineModel.NotAvailable), Some(MedicineModel.NotAvailable)) == BadgeOf(Safe)
  {
    var na := MedicineModel.NotAvailable;
    var low := LowerStr(na);
    var text := BadgeText(Some(na), Some(na));
    LowerStrAppend(na + " ", na);
    LowerStrAppend(na, " ");
    assert LowerStr(" ") == " ";
    assert text == low + " " + low;
    SentinelLowered();
    SentinelLetters();
    SafeWithoutKeyLetters(text);
  }

  /** A record with neither field present reads as a single space, which is generally safe. */
  lemma AbsentFieldsAreSafe()
    ensures GetSafetyBadge(None, None) == BadgeOf(Safe)
  {
    assert BadgeText(None, None) == " ";
  }
}
