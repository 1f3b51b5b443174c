/** The configured defaults the tools fall back to (`config.py`). */
module Config {

  /** `RSS_FEEDS`: the feeds read when no feed list is given. */
  const RssFeeds: seq<string> := [
    "https://www.excelsior.com.mx/rss.xml",
    "https://www.elfinanciero.com.mx/rss",
    "https://www.sinembargo.mx/feed",
    "https://www.informador.mx/rss/mexico.xml",
    "https://www.clarin.com/rss/lo-ultimo/",
    "https://torrentfreak.com/feed/",
    "https://piracymonitor.org/feed/",
    "https://computerhoy.20minutos.es/rss/ultimo",
    "https://www.alliance4creativity.com/feed/",
    "https://www.panoramaaudiovisual.com/feed/",
    "https://hnrss.org/newest",
    "https://hnrss.org/frontpage",
    "https://www.elespanol.com/rss/"
  ]

  /** `GOOGLE_SEARCH_KEYWORDS`: one Google query per keyword, in this order. */
  const GoogleSearchKeywords: seq<string> := [
    "antipirateria",
    "pirateria",
    "piratería audiovisual",
    "iptv",
    "streaming ilegal",
    "golpe a la pirateria",
    "cardsharing",
    "VIARK"
  ]
}
