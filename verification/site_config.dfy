/** Site-wide constants of site.config.js. */
module SiteConfig {

  /** The locale codes, in declaration order; the first is the default. */
  const Locales: seq<string> := ["en", "es", "prs", "ar", "ku", "ps", "uk", "my"]

  const DefaultLocale: string := "en"

  /** Locales written right to left. */
  const RtlLocales: seq<string> := ["ar", "ku", "prs"]

  const SiteName: string := "Laaha"

  /** No locale code contains a character that the front-end uses as a separator. */
  lemma LocaleCharacters()
    ensures forall l :: l in Locales ==> |l| >= 2 && forall c :: c in l ==> 'a' <= c <= 'z'
    ensures Locales[0] == DefaultLocale
  {
  }
}
