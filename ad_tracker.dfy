/** The Instagram ad heuristics of the WhatsApp relay
    (whatsapp-integration/src/services/ad-tracker.ts): a message is an ad lead
    when its lower-cased text contains one of a fixed list of indicators, and
    campaign details come from fixed campaign codes, overridden by an explicit
    `campaign_<id>` or `campaign=<id>` in the text. */
module AdTracker {
  import opened Wrappers
  import opened Text

  const Indicators: seq<string> := [
    "ig_ad", "instagram_ad", "insta_ad", "ig_promo", "ig2024", "igruka",
    "from instagram", "saw your instagram", "instagram post", "instagram ad", "ig ad", "your ig",
    "igdec24", "igoffer", "igspecial", "instaoffer",
    "utm_source=instagram", "utm_source=ig", "utm_medium=social", "utm_campaign=ig",
    "interested from instagram", "dm from instagram", "message from ig"
  ]

  /** `isFromInstagramAd(message)`: a non-empty message whose lower-cased form
      contains some indicator. */
  function IsFromInstagramAd(message: string): (r: bool)
    ensures r ==> |message| >= 5
  {
    IndicatedLength(Lower(message));
    message != "" && exists i :: 0 <= i < |Indicators| && Contains(Lower(message), Indicators[i])
  }

  /** The shortest indicators ("ig_ad", "ig ad") have five characters. */
  lemma IndicatorsLength()
    ensures forall i :: 0 <= i < |Indicators| ==> |Indicators[i]| >= 5
  {
  }

  /** Text that contains an indicator has at least five characters. */
  lemma IndicatedLength(lowered: string)
    ensures (exists i :: 0 <= i < |Indicators| && Contains(lowered, Indicators[i])) ==> |lowered| >= 5
  {
    if exists i :: 0 <= i < |Indicators| && Contains(lowered, Indicators[i]) {
      var i :| 0 <= i < |Indicators| && Contains(lowered, Indicators[i]);
      IndicatorsLength();
      ContainsLength(lowered, Indicators[i]);
    }
  }

  /** Classification ignores letter case. */
  lemma AdCaseInsensitive(message: string)
    ensures IsFromInstagramAd(message) == IsFromInstagramAd(Lower(message))
  {
    LowerIdempotent(message);
  }

  /** Any text containing a message classified as an ad is itself an ad. */
  lemma AdMonotone(message: string, larger: string)
    requires IsFromInstagramAd(message) && Contains(larger, message)
    ensures IsFromInstagramAd(larger)
  {
    var i :| 0 <= i < |Indicators| && Contains(Lower(message), Indicators[i]);
    ContainsLower(larger, message);
    ContainsTransitive(Lower(larger), Lower(message), Indicators[i]);
    ContainsLength(larger, message);
  }

  /** Each indicator on its own, in any letter case, is classified as an ad. */
  lemma IndicatorIsAd(message: string, i: int)
    requires 0 <= i < |Indicators| && Lower(message) == Indicators[i]
    ensures IsFromInstagramAd(message)
  {
    IndicatorsLength();
    assert OccursAt(Lower(message), Indicators[i], 0);
  }

  /** `/<key>[_=]([a-zA-Z0-9_-]+)/i` can start matching at `p`, for a lower-case key. */
  predicate KeyedAt(s: string, key: string, p: int) {
    0 <= p && p + |key| + 2 <= |s|
    && Lower(s[p..p + |key|]) == key
    && (s[p + |key|] == '_' || s[p + |key|] == '=')
    && IsIdChar(s[p + |key| + 1])
  }

  /** The leftmost position at or after `from` where the keyed pattern matches. */
  function FirstKeyed(s: string, key: string, from: nat): (r: Option<nat>)
    requires from <= |s|
    ensures r.Some? ==> from <= r.value && KeyedAt(s, key, r.value)
    ensures r.Some? ==> forall p :: from <= p < r.value ==> !KeyedAt(s, key, p)
    ensures r.None? ==> forall p :: from <= p <= |s| ==> !KeyedAt(s, key, p)
    decreases |s| - from
  {
    if KeyedAt(s, key, from) then Some(from)
    else if from == |s| then None
    else FirstKeyed(s, key, from + 1)
  }

  /** `s.match(/<key>[_=]([a-zA-Z0-9_-]+)/i)?.[1]`: the id after the leftmost
      `<key>_` or `<key>=`, taken as far as id characters go. */
  function MatchKeyed(s: string, key: string): (r: Option<string>)
    ensures r.None? <==> forall p :: 0 <= p <= |s| ==> !KeyedAt(s, key, p)
    ensures r.Some? ==>
      var start := FirstKeyed(s, key, 0).value + |key| + 1;
      && |r.value| >= 1 && AllChars(r.value, IsIdChar)
      && start + |r.value| <= |s| && s[start..start + |r.value|] == r.value
      && (start + |r.value| == |s| || !IsIdChar(s[start + |r.value|]))
  {
    match FirstKeyed(s, key, 0)
    case None => None
    case Some(p) =>
      var start := p + |key| + 1;
      var n := Span(s[start..], IsIdChar);
      assert s[start..][..n] == s[start..start + n];
      Some(s[start..start + n])
  }

  datatype CampaignDetails = CampaignDetails(platform: string, campaign: string, adSet: Option<string>, keyword: Option<string>)

  /** The campaign named by a campaign code in the lower-cased message, in priority order. */
  function CodeCampaign(lowered: string): string {
    if Contains(lowered, "igdec24") then "December 2024 Campaign"
    else if Contains(lowered, "igoffer") then "Special Offer Campaign"
    else if Contains(lowered, "ig_promo") then "Promotional Campaign"
    else "Unknown"
  }

  /** The details `getCampaignDetails(message)` returns: an explicit campaign
      id wins over the campaign codes. */
  function CampaignDetailsOf(message: string): (r: CampaignDetails)
    ensures r.platform == "Instagram" && r.keyword.None? && r.campaign != ""
    ensures r.adSet.Some? ==> |r.adSet.value| >= 1 && AllChars(r.adSet.value, IsIdChar)
  {
    CampaignDetails(
      "Instagram",
      match MatchKeyed(message, "campaign")
      case Some(id) => id
      case None => CodeCampaign(Lower(message)),
      MatchKeyed(message, "adset"),
      None)
  }

  /** `getCampaignDetails(message)`: starts from the defaults and overwrites
      fields of the record one rule at a time. */
  method GetCampaignDetails(message: string) returns (details: CampaignDetails)
    ensures details == CampaignDetailsOf(message)
    ensures details.platform == "Instagram" && details.keyword.None?
  {
    details := CampaignDetails("Instagram", "Unknown", None, None);
    var lowered := Lower(message);
    if Contains(lowered, "igdec24") {
      details := details.(campaign := "December 2024 Campaign");
    } else if Contains(lowered, "igoffer") {
      details := details.(campaign := "Special Offer Campaign");
    } else if Contains(lowered, "ig_promo") {
      details := details.(campaign := "Promotional Campaign");
    }
    var campaignMatch := MatchKeyed(message, "campaign");
    if campaignMatch.Some? {
      details := details.(campaign := campaignMatch.value);
    }
    var adSetMatch := MatchKeyed(message, "adset");
    if adSetMatch.Some? {
      details := details.(adSet := Some(adSetMatch.value));
    }
  }

  /** The campaign is never empty; it is "Unknown" exactly when the message
      has no campaign id and no campaign code; an explicit id always wins. */
  lemma CampaignRules(message: string)
    ensures CampaignDetailsOf(message).campaign != ""
    ensures CampaignDetailsOf(message).campaign == "Unknown" <==>
      (MatchKeyed(message, "campaign").None? || MatchKeyed(message, "campaign") == Some("Unknown"))
      && (MatchKeyed(message, "campaign").None? ==>
            !Contains(Lower(message), "igdec24") && !Contains(Lower(message), "igoffer")
            && !Contains(Lower(message), "ig_promo"))
    ensures MatchKeyed(message, "campaign").Some? ==>
      CampaignDetailsOf(message).campaign == MatchKeyed(message, "campaign").value
  {
  }

  /** Without a campaign id, a message carrying both the December and the
      offer code is attributed to the December campaign. */
  lemma CodePriority(message: string)
    requires MatchKeyed(message, "campaign").None?
    requires Contains(Lower(message), "igdec24")
    ensures CampaignDetailsOf(message).campaign == "December 2024 Campaign"
  {
  }

  /** A concrete message: the key is matched in any letter case and the id
      runs up to the first character outside `[a-zA-Z0-9_-]`. */
  lemma CampaignIdExample()
    ensures MatchKeyed("Campaign_Q4 now", "campaign") == Some("Q4")
  {
    var s := "Campaign_Q4 now";
    assert s[0..8] == "Campaign";
    assert Lower("Campaign") == "campaign" by {
      assert LowerChar('C') == 'c';
    }
    assert KeyedAt(s, "campaign", 0);
    assert s[9..][0] == 'Q' && s[9..][1] == '4' && s[9..][2] == ' ';
    assert Span(s[9..], IsIdChar) == 2;
    assert FirstKeyed(s, "campaign", 0) == Some(0);
    assert s[9..11] == "Q4";
  }

  /** The result of the deprecated `detectAdSource(message)`. */
  datatype AdSource = Organic(platform: string, campaign: string) | FromAd(details: CampaignDetails)

  /** `detectAdSource(message)`: campaign details for an ad lead, otherwise
      the organic marker. */
  function DetectAdSource(message: string): (r: AdSource)
    ensures r.Organic? <==> !IsFromInstagramAd(message)
    ensures r.Organic? ==> r == Organic("Organic", "Direct")
    ensures r.FromAd? ==> r.details == CampaignDetailsOf(message) && r.details.platform == "Instagram"
  {
    if IsFromInstagramAd(message) then FromAd(CampaignDetailsOf(message)) else Organic("Organic", "Direct")
  }

  /** Whether a message is organic does not depend on letter case, and an
      organic answer never names the Instagram platform. */
  lemma DetectAdSourceCaseInsensitive(message: string)
    ensures DetectAdSource(message).Organic? == DetectAdSource(Lower(message)).Organic?
    ensures DetectAdSource(message).Organic? ==> DetectAdSource(message).platform != "Instagram"
  {
    AdCaseInsensitive(message);
  }
}
