/** The social-card image endpoint (frontend/functions/api/og.js): the
    badge fallback, the text lines of the card and the query defaults. The
    name is cleaned by the same sanitiser as the share page's; the SVG
    markup around the text is not modelled. */
module OgImage {
  import opened Wrappers
  import opened Text
  import Badges
  import Share

  datatype CardBadge = CardBadge(icon: string, name: string, color: string)

  /** The endpoint's own `BADGES` table. */
  function LookupCardBadge(id: string): Option<CardBadge> {
    if id == "bronze" then Some(CardBadge("\U{1F949}", "Script Kiddie", "#CD7F32"))
    else if id == "silver" then Some(CardBadge("\U{1F948}", "Social Engineer", "#C0C0C0"))
    else if id == "gold" then Some(CardBadge("\U{1F947}", "Prompt Hacker", "#FFD700"))
    else if id == "diamond" then Some(CardBadge("\U{1F48E}", "AI Breaker", "#B9F2FF"))
    else None
  }

  /** The table agrees with the client's tiers, and with the share page's
      table, on every id, icon, name and colour. */
  lemma CardBadgeTableAgrees(id: string)
    ensures forall b: Badges.Badge :: b.Id() == id ==> LookupCardBadge(id) == Some(CardBadge(b.Icon(), b.Name(), b.Color()))
    ensures LookupCardBadge(id).Some? <==> Share.LookupBadge(id).Some?
    ensures LookupCardBadge(id).Some? ==>
      Share.LookupBadge(id).value == Share.BadgeInfo(LookupCardBadge(id).value.icon, LookupCardBadge(id).value.name)
  {
  }

  const DEFAULT_COLOR := "#00ff88"

  /** The text of a card. */
  datatype Card = Card(icon: string, headline: string, badgeLine: Option<string>, badgeColor: string)

  /** The card's main line: the player's name when one survives sanitising,
      else the plain level line. */
  function Headline(level: string, sanitized: string): (h: string)
    ensures sanitized == "" ==> h == "Level " + level + " Complete!"
    ensures |h| > |level| + |sanitized|
  {
    if sanitized != "" then sanitized + " beat Level " + level + "!" else "Level " + level + " Complete!"
  }

  /** The headline always shows the level, and a non-empty name before it. */
  lemma HeadlineShows(level: string, sanitized: string)
    ensures Contains(Headline(level, sanitized), level)
    ensures sanitized != "" ==> Contains(Headline(level, sanitized), sanitized + " beat Level " + level)
  {
    var h := Headline(level, sanitized);
    if sanitized != "" {
      ContainsSplit(h, sanitized + " beat Level ", level, "!");
      ContainsSplit(h, [], sanitized + " beat Level " + level, "!");
    } else {
      ContainsSplit(h, "Level ", level, " Complete!");
    }
  }

  /** `generateSVG`, reduced to what the card says. */
  function GenerateCard(level: string, badgeId: string, name: string): (c: Card)
    ensures LookupCardBadge(badgeId).None? ==> c.icon == Share.FALLBACK_ICON && c.badgeLine.None? && c.badgeColor == DEFAULT_COLOR
    ensures LookupCardBadge(badgeId).Some? ==> (c.icon == LookupCardBadge(badgeId).value.icon
      && c.badgeLine == Some(LookupCardBadge(badgeId).value.name) && c.badgeColor == LookupCardBadge(badgeId).value.color)
    ensures c.headline == Headline(level, Share.SanitizeName(Some(name)))
  {
    var badge := LookupCardBadge(badgeId);
    Card(
      if badge.Some? then badge.value.icon else Share.FALLBACK_ICON,
      Headline(level, Share.SanitizeName(Some(name))),
      if badge.Some? then Some(badge.value.name) else None,
      if badge.Some? then badge.value.color else DEFAULT_COLOR)
  }

  /** `onRequest`'s reading of the query: level `'1'`, badge and name empty
      when missing or empty. */
  function ReadCardQuery(q: Share.Query): (r: (string, string, string))
    ensures q.level.None? || q.level.value == "" ==> r.0 == "1"
    ensures q.level.Some? && q.level.value != "" ==> r.0 == q.level.value
    ensures q.badge.None? ==> r.1 == ""
    ensures q.badge.Some? ==> r.1 == q.badge.value
    ensures q.name.None? ==> r.2 == ""
    ensures q.name.Some? ==> r.2 == q.name.value
  {
    (Share.OrDefault(q.level, "1"), Share.OrDefault(q.badge, ""), Share.OrDefault(q.name, ""))
  }

  /** The card drawn for the values a share page passes on shows that page's
      icon, shows a badge line exactly when the page knows the badge, and
      greets the page's name without any white space the cut left at its end. */
  lemma CardMatchesSharePage(q: Share.Query)
    ensures var d := Share.ReadQuery(q);
      var c := GenerateCard(d.level, d.badgeId, d.name);
      c.icon == d.badgeIcon
      && (c.badgeLine.Some? <==> d.badge.Some?)
      && Share.SanitizeName(Some(d.name)) == TrimEnd(d.name, IsJsSpace)
  {
    var d := Share.ReadQuery(q);
    CardBadgeTableAgrees(d.badgeId);
    var c := GenerateCard(d.level, d.badgeId, d.name);
    assert c.icon == d.badgeIcon;
    Share.ResanitizeTrimsEnd(Some(Share.OrDefault(q.name, "")));
  }
}
