/** The two URL helpers of the client: the de-duplication key and the short
    label shown in the progress text. The URL parser itself is a parameter. */
module Urls {
  import opened Wrappers
  import Text

  /** The components of a parsed URL that the client reads. */
  datatype UrlParts = UrlParts(hostname: string, pathname: string)

  /** The basic URL parser of section 4.4 of the WHATWG URL Standard
      (`new URL(url)`), left uninterpreted: `None` when the constructor throws. */
  type UrlParser = string -> Option<UrlParts>

  /** `normalizeUrl` (public/script.js:304-311): host and path, lower-cased,
      when the URL parses; the whole string lower-cased when it does not. It
      never fails. */
  function NormalizeUrl(parse: UrlParser, url: string): (key: string)
    ensures Text.IsLowerCase(key)
    ensures parse(url).None? ==> key == Text.Lower(url)
    ensures parse(url).Some? ==>
              key == Text.Lower(parse(url).value.hostname) + Text.Lower(parse(url).value.pathname)
  {
    match parse(url)
    case Some(parts) => Text.Lower(parts.hostname + parts.pathname)
    case None => Text.Lower(url)
  }

  /** Two unparseable URLs that differ only in the case of ASCII letters get
      the same key. */
  lemma UnparsedKeysIgnoreCase(parse: UrlParser, a: string, b: string)
    requires parse(a).None? && parse(b).None?
    requires Text.Lower(a) == Text.Lower(b)
    ensures NormalizeUrl(parse, a) == NormalizeUrl(parse, b)
  {
  }

  /** Two parseable URLs whose hosts and paths agree up to ASCII case get the same key. */
  lemma ParsedKeysIgnoreCase(parse: UrlParser, a: string, b: string)
    requires parse(a).Some? && parse(b).Some?
    requires Text.Lower(parse(a).value.hostname) == Text.Lower(parse(b).value.hostname)
    requires Text.Lower(parse(a).value.pathname) == Text.Lower(parse(b).value.pathname)
    ensures NormalizeUrl(parse, a) == NormalizeUrl(parse, b)
  {
  }

  const ShortLabelLength := 30
  const Ellipsis := "..."

  /** `shortenUrl` (public/script.js:324-331): the host name when the URL
      parses; otherwise the text itself, cut to its first 30 characters with
      an ellipsis when it is longer. */
  function ShortenUrl(parse: UrlParser, url: string): (shown: string)
    ensures parse(url).Some? ==> shown == parse(url).value.hostname
    ensures parse(url).None? ==> |shown| <= ShortLabelLength + |Ellipsis|
    ensures parse(url).None? && |url| <= ShortLabelLength ==> shown == url
    ensures parse(url).None? && |url| > ShortLabelLength ==>
              |shown| == ShortLabelLength + |Ellipsis| &&
              shown[..ShortLabelLength] == url[..ShortLabelLength] && shown[ShortLabelLength..] == Ellipsis
  {
    match parse(url)
    case Some(parts) => parts.hostname
    case None =>
      if |url| > ShortLabelLength then url[..ShortLabelLength] + Ellipsis else url
  }
}
