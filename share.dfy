/** The share page endpoint (frontend/functions/share.js): the name
    sanitiser, the query defaults, the choice of title and description, and
    the two URLs the page points at. The HTML template around them is not
    modelled. */
module Share {
  import opened Wrappers
  import opened Text
  import Badges
  import Uri

  /** `\w` without the Unicode flag. */
  predicate IsWordChar(c: char) {
    ('A' <= c <= 'Z') || ('a' <= c <= 'z') || ('0' <= c <= '9') || c == '_'
  }

  /** The characters the first replace removes. */
  predicate IsMarkup(c: char) {
    c in {'<', '>', '&', '"', '\''}
  }

  predicate NotMarkup(c: char) {
    !IsMarkup(c)
  }

  /** The class `[\w\s\-_.]` the second replace keeps. */
  predicate Allowed(c: char) {
    IsWordChar(c) || IsJsSpace(c) || c == '-' || c == '_' || c == '.'
  }

  /** `s.replace(/[^class]/g, '')`: the characters of `s` in `keep`, in order. */
  function Keep(s: string, keep: char -> bool): (r: string)
    ensures |r| <= |s|
    ensures forall c :: c in r ==> c in s && keep(c)
  {
    if s == [] then [] else (if keep(s[0]) then [s[0]] else []) + Keep(s[1..], keep)
  }

  /** Keeping every character of a string that has only kept characters is
      the identity. */
  lemma {:induction false} KeepAll(s: string, keep: char -> bool)
    requires forall i :: 0 <= i < |s| ==> keep(s[i])
    ensures Keep(s, keep) == s
  {
    if s != [] {
      KeepAll(s[1..], keep);
      assert s == [s[0]] + s[1..];
    }
  }

  /** The markup pass is subsumed by the class pass: dropping `<>&"'` first
      changes nothing, since none of them is in the allowed class. */
  lemma {:induction false} MarkupPassRedundant(s: string)
    ensures Keep(Keep(s, NotMarkup), Allowed) == Keep(s, Allowed)
  {
    if s != [] {
      MarkupPassRedundant(s[1..]);
      if NotMarkup(s[0]) {
        assert Keep(s, NotMarkup) == [s[0]] + Keep(s[1..], NotMarkup);
        assert Keep(s, NotMarkup)[1..] == Keep(s[1..], NotMarkup);
      } else {
        assert Keep(s, NotMarkup) == Keep(s[1..], NotMarkup);
      }
    }
  }

  /** `slice(0, n)`. */
  function Take(s: string, n: nat): (r: string)
    ensures |r| <= n && |r| <= |s| && r == s[..|r|]
    ensures |s| <= n ==> r == s
    ensures forall c :: c in r ==> c in s
  {
    if |s| <= n then s else s[..n]
  }

  /** `sanitizeName`: a missing or empty name is empty; otherwise markup and
      every character outside `[\w\s\-_.]` go, white space is trimmed from
      both ends, and the result is cut to 20 characters. */
  function SanitizeName(name: Option<string>): (r: string)
    ensures name.None? || name.value == "" ==> r == ""
    ensures |r| <= 20
    ensures forall i :: 0 <= i < |r| ==> Allowed(r[i]) && !IsMarkup(r[i])
    ensures r != [] ==> !IsJsSpace(r[0])
  {
    if name.None? || name.value == "" then ""
    else
      var r := Take(JsTrim(Keep(Keep(name.value, NotMarkup), Allowed)), 20);
      assert forall i :: 0 <= i < |r| ==> r[i] in r;
      r
  }

  /** The image endpoint sanitises the name the share page already
      sanitised; the second pass only trims white space the 20-character cut
      may have left at the end. */
  lemma ResanitizeTrimsEnd(name: Option<string>)
    ensures SanitizeName(Some(SanitizeName(name))) == TrimEnd(SanitizeName(name), IsJsSpace)
  {
    var s := SanitizeName(name);
    if s != "" {
      KeepAll(s, NotMarkup);
      KeepAll(s, Allowed);
      assert TrimStart(s, IsJsSpace) == s;
    }
  }

  datatype BadgeInfo = BadgeInfo(icon: string, name: string)

  /** The page's `BADGES` table. */
  function LookupBadge(id: string): Option<BadgeInfo> {
    if id == "bronze" then Some(BadgeInfo("\U{1F949}", "Script Kiddie"))
    else if id == "silver" then Some(BadgeInfo("\U{1F948}", "Social Engineer"))
    else if id == "gold" then Some(BadgeInfo("\U{1F947}", "Prompt Hacker"))
    else if id == "diamond" then Some(BadgeInfo("\U{1F48E}", "AI Breaker"))
    else None
  }

  /** The page's table agrees with the client's tiers on ids, icons and names. */
  lemma BadgeTableAgrees(id: string)
    ensures LookupBadge(id).Some? <==> exists b: Badges.Badge :: b.Id() == id
    ensures forall b: Badges.Badge :: b.Id() == id ==> LookupBadge(id) == Some(BadgeInfo(b.Icon(), b.Name()))
  {
    if LookupBadge(id).Some? {
      var b: Badges.Badge :=
        if id == "bronze" then Badges.Bronze else if id == "silver" then Badges.Silver
        else if id == "gold" then Badges.Gold else Badges.Diamond;
      assert b.Id() == id;
    }
  }

  const FALLBACK_ICON := "\U{1F513}"

  /** The query string as the endpoint reads it. */
  datatype Query = Query(level: Option<string>, badge: Option<string>, name: Option<string>)

  /** `searchParams.get(key) || fallback`: a missing or empty value falls back. */
  function OrDefault(value: Option<string>, fallback: string): (r: string)
    ensures value.Some? && value.value != "" ==> r == value.value
    ensures value.None? || value.value == "" ==> r == fallback
  {
    if value.Some? && value.value != "" then value.value else fallback
  }

  /** Everything the page is built from. */
  datatype ShareData = ShareData(
    level: string, badgeId: string, badge: Option<BadgeInfo>, name: string,
    badgeName: string, badgeIcon: string)

  function ReadQuery(q: Query): (d: ShareData)
    ensures d.level != ""
    ensures q.level.None? || q.level.value == "" ==> d.level == "1"
    ensures q.level.Some? && q.level.value != "" ==> d.level == q.level.value
    ensures d.badgeId == OrDefault(q.badge, "")
    ensures d.badge == LookupBadge(d.badgeId)
    ensures d.name == SanitizeName(q.name)
    ensures d.badge.None? ==> d.badgeName == "" && d.badgeIcon == FALLBACK_ICON
    ensures d.badge.Some? ==> d.badgeName == d.badge.value.name && d.badgeIcon == d.badge.value.icon
  {
    var level := OrDefault(q.level, "1");
    var badgeId := OrDefault(q.badge, "");
    var badge := LookupBadge(badgeId);
    var name := SanitizeName(Some(OrDefault(q.name, "")));
    ShareData(level, badgeId, badge, name,
      if badge.Some? then badge.value.name else "",
      if badge.Some? then badge.value.icon else FALLBACK_ICON)
  }

  const SUFFIX := " | BreachLab"

  /** The page title: the player's branch when a name was given, else the
      badge's branch when the badge is known, else the plain level line. */
  function Title(d: ShareData): (t: string)
    ensures |t| > |SUFFIX| && t[|t| - |SUFFIX|..] == SUFFIX
  {
    var level := "Level " + d.level;
    if d.name != "" then
      d.badgeIcon + " " + d.name + " - " + (if d.badgeName != "" then d.badgeName else level) + SUFFIX
    else if d.badge.Some? then
      d.badgeIcon + " " + d.badgeName + " - " + level + SUFFIX
    else
      level + " Complete!" + SUFFIX
  }

  /** A given name is shown in the title, after the badge icon. */
  lemma TitleShowsName(d: ShareData)
    requires d.name != ""
    ensures Contains(Title(d), d.badgeIcon + " " + d.name)
  {
    var tail := if d.badgeName != "" then d.badgeName else "Level " + d.level;
    assert Title(d) == [] + (d.badgeIcon + " " + d.name) + (" - " + tail + SUFFIX);
    ContainsInfix([], d.badgeIcon + " " + d.name, " - " + tail + SUFFIX);
  }

  /** A known badge's name is shown in the title, with or without a player name. */
  lemma TitleShowsBadge(d: ShareData)
    requires d.badge.Some? && d.badgeName != ""
    ensures Contains(Title(d), d.badgeName)
  {
    var pre := if d.name != "" then d.badgeIcon + " " + d.name + " - " else d.badgeIcon + " ";
    var post := if d.name != "" then SUFFIX else " - Level " + d.level + SUFFIX;
    assert Title(d) == pre + d.badgeName + post;
    ContainsInfix(pre, d.badgeName, post);
  }

  /** Without a name and a badge together, the title shows the level; with
      neither, it is exactly the plain level line. */
  lemma TitleShowsLevel(d: ShareData)
    requires !(d.name != "" && d.badgeName != "")
    ensures Contains(Title(d), d.level)
    ensures d.name == "" && d.badge.None? ==> Title(d) == "Level " + d.level + " Complete!" + SUFFIX
  {
    var pre :=
      if d.name != "" then d.badgeIcon + " " + d.name + " - Level "
      else if d.badge.Some? then d.badgeIcon + " " + d.badgeName + " - Level "
      else "Level ";
    var post := if d.name == "" && d.badge.None? then " Complete!" + SUFFIX else SUFFIX;
    assert Title(d) == pre + d.level + post;
    ContainsInfix(pre, d.level, post);
  }

  const BADGE_WORD := " badge"
  const PITCH := " on BreachLab! Can you hack an AI?"

  /** The page description, on the same three branches as the title. */
  function Description(d: ShareData): (t: string)
    ensures |t| > |d.level|
  {
    if d.name != "" then
      (d.name + " earned the ") + ((if d.badgeName != "" then d.badgeName else "a") + BADGE_WORD)
        + (PITCH + " They made it to Level " + d.level + ".")
    else if d.badge.Some? then
      "I earned the " + (d.badgeName + BADGE_WORD) + (PITCH + " I made it to Level " + d.level + ".")
    else
      "I beat Level " + d.level + PITCH
  }

  lemma DescriptionShowsNamed(d: ShareData)
    requires d.name != ""
    ensures Contains(Description(d), d.name + " earned the ")
    ensures d.badgeName != "" ==> Contains(Description(d), d.badgeName + BADGE_WORD)
    ensures Contains(Description(d), d.level)
  {
    var pre := d.name + " earned the ";
    var mid := (if d.badgeName != "" then d.badgeName else "a") + BADGE_WORD;
    var rest := PITCH + " They made it to Level ";
    var tail := rest + d.level + ".";
    ContainsSplit(pre, [], pre, []);
    ContainsWithin([], pre, mid + tail, pre);
    assert Description(d) == [] + pre + (mid + tail);
    ContainsSplit(Description(d), pre, mid, tail);
    ContainsSplit(tail, rest, d.level, ".");
    ContainsWithin(pre + mid, tail, [], d.level);
    assert Description(d) == pre + mid + tail + [];
  }

  lemma DescriptionShowsBadge(d: ShareData)
    requires d.name == "" && d.badge.Some?
    ensures Contains(Description(d), d.badgeName + BADGE_WORD)
    ensures Contains(Description(d), d.level)
  {
    var mid := d.badgeName + BADGE_WORD;
    var tail := PITCH + " I made it to Level " + d.level + ".";
    ContainsSplit(Description(d), "I earned the ", mid, tail);
    ContainsSplit(tail, PITCH + " I made it to Level ", d.level, ".");
    ContainsWithin("I earned the " + mid, tail, [], d.level);
    assert Description(d) == "I earned the " + mid + tail + [];
  }

  /** The description names the player when there is one, the badge when
      it is known, and always the level. */
  lemma DescriptionShows(d: ShareData)
    ensures d.name != "" ==> Contains(Description(d), d.name + " earned the ")
    ensures d.badge.Some? && d.badgeName != "" ==> Contains(Description(d), d.badgeName + BADGE_WORD)
    ensures Contains(Description(d), d.level)
  {
    if d.name != "" {
      DescriptionShowsNamed(d);
    } else if d.badge.Some? {
      DescriptionShowsBadge(d);
    } else {
      ContainsInfix("I beat Level ", d.level, PITCH);
    }
  }

  /** The level parameter is never sanitised: whatever text it carries,
      markup included, reaches the title of a page without a name or badge. */
  lemma LevelReachesTitle(level: string)
    requires level != ""
    ensures Contains(Title(ReadQuery(Query(Some(level), None, None))), level)
  {
    TitleShowsLevel(ReadQuery(Query(Some(level), None, None)));
  }

  const ORIGIN := "https://breachlab.xsourcesec.com"

  /** A URL with the level and badge as given and, for a non-empty name, an
      encoded `name` parameter last. */
  function WithName(base: string, name: string): (url: string)
    ensures name == "" ==> url == base
    ensures name != "" ==> url == base + "&name=" + Uri.EncodeURIComponent(name)
  {
    if name != "" then base + "&name=" + Uri.EncodeURIComponent(name) else base
  }

  function OgImageUrl(d: ShareData): string {
    WithName(ORIGIN + "/api/og?level=" + d.level + "&badge=" + d.badgeId, d.name)
  }

  function CanonicalUrl(d: ShareData): string {
    WithName(ORIGIN + "/share?level=" + d.level + "&badge=" + d.badgeId, d.name)
  }

  /** Both URLs carry a name parameter exactly when the sanitised name is not
      empty, and that parameter's value contains no `&`, `=` or `#`, so it
      cannot end the query or add a parameter of its own. */
  lemma NameParameter(d: ShareData)
    ensures d.name == "" ==> OgImageUrl(d) == ORIGIN + "/api/og?level=" + d.level + "&badge=" + d.badgeId
    ensures d.name == "" ==> CanonicalUrl(d) == ORIGIN + "/share?level=" + d.level + "&badge=" + d.badgeId
    ensures d.name != "" ==> Contains(OgImageUrl(d), "&name=") && Contains(CanonicalUrl(d), "&name=")
    ensures forall i :: 0 <= i < |Uri.EncodeURIComponent(d.name)| ==>
      Uri.EncodeURIComponent(d.name)[i] !in {'&', '=', '#'}
  {
    Uri.EncodeAlphabet(d.name);
    if d.name != "" {
      ContainsInfix(ORIGIN + "/api/og?level=" + d.level + "&badge=" + d.badgeId, "&name=", Uri.EncodeURIComponent(d.name));
      ContainsInfix(ORIGIN + "/share?level=" + d.level + "&badge=" + d.badgeId, "&name=", Uri.EncodeURIComponent(d.name));
    }
  }
}
