/**
 * The SEO helpers of `src/utils/seo.ts`: page title, description and
 * keywords composed with per-language defaults (`en` and `es`, any other
 * language falling back to `en`), the Open Graph image URL, and the
 * JSON-LD `TechArticle` object. Every empty string is falsy, as in
 * JavaScript's `||` and `?:`.
 */
module Seo {
  import opened Wrappers

  /** One language's entry of `defaultSEO`. */
  datatype SiteDefaults = SiteDefaults(siteName: string, description: string, keywords: string, author: string)
  {
    function Get(field: Field): string
    {
      match field
      case SiteName => siteName
      case Description => description
      case Keywords => keywords
      case Author => author
    }
  }

  /** The four fields of an entry. */
  datatype Field = SiteName | Description | Keywords | Author

  const English: SiteDefaults := SiteDefaults(
    "Orionis Framework",
    "Revolutionary full-stack development framework with PHP and Python. Build without limits with RPA, AI, Blockchain and more.",
    "Orionis Framework, full-stack development, PHP, Python, RPA, artificial intelligence, blockchain, web development",
    "Raul Mauricio U\U{F1}ate Castro")

  const Spanish: SiteDefaults := SiteDefaults(
    "Orionis Framework",
    "Framework revolucionario para desarrollo full-stack con PHP y Python. Construye sin l\U{ED}mites con RPA, IA, Blockchain y m\U{E1}s.",
    "Orionis Framework, desarrollo full-stack, PHP, Python, RPA, inteligencia artificial, blockchain, desarrollo web",
    "Raul Mauricio U\U{F1}ate Castro")

  /** The default of the optional `lang` parameters. */
  const DefaultLang: string := "en"

  /** The default of the optional `baseURL` parameter. */
  const DefaultBaseURL: string := "https://docs.orionis-framework.com"

  const OGImagePath: string := "/og-image.png"

  /** `defaultSEO[lang]`: an entry for `en` and `es` only. */
  function DefaultSEO(lang: string): Option<SiteDefaults>
  {
    if lang == "en" then Some(English)
    else if lang == "es" then Some(Spanish)
    else None
  }

  /** JavaScript's `a || b` on strings. */
  function Or(a: string, b: string): string
  {
    if a != "" then a else b
  }

  /** `defaultSEO[lang]?.<field> || defaultSEO.en.<field>`. */
  function LocalField(lang: string, field: Field): string
  {
    Or(match DefaultSEO(lang) case Some(d) => d.Get(field) case None => "", English.Get(field))
  }

  /** The whole entry a language ends up with: Spanish for `es`, English for everything else. */
  function LocaleFor(lang: string): SiteDefaults
  {
    if lang == "es" then Spanish else English
  }

  /** `generateSEOTitle(pageTitle, lang)`. */
  function GenerateSEOTitle(pageTitle: string, lang: Option<string>): (title: string)
    ensures pageTitle != "" ==> title == pageTitle + " - Orionis Framework"
    ensures pageTitle == "" ==> title == "Orionis Framework"
  {
    var siteName := LocalField(lang.GetOr(DefaultLang), SiteName);
    if pageTitle != "" then pageTitle + " - " + siteName else siteName
  }

  /** `generateSEODescription(pageDescription, lang)`. */
  function GenerateSEODescription(pageDescription: string, lang: Option<string>): (description: string)
    ensures pageDescription != "" ==> description == pageDescription
    ensures pageDescription == "" ==> description == LocaleFor(lang.GetOr(DefaultLang)).description
    ensures description != ""
  {
    Or(pageDescription, LocalField(lang.GetOr(DefaultLang), Description))
  }

  /** `generateKeywords(pageKeywords, lang)`. */
  function GenerateKeywords(pageKeywords: string, lang: Option<string>): (keywords: string)
    ensures var defaults := LocaleFor(lang.GetOr(DefaultLang)).keywords;
            && (pageKeywords != "" ==> keywords == pageKeywords + ", " + defaults)
            && (pageKeywords == "" ==> keywords == defaults)
            && |keywords| >= |defaults| && keywords[|keywords| - |defaults|..] == defaults
  {
    var defaultKeywords := LocalField(lang.GetOr(DefaultLang), Keywords);
    if pageKeywords != "" then pageKeywords + ", " + defaultKeywords else defaultKeywords
  }

  /** `generateOGImageURL(title, baseURL)`: a fixed image under the base URL. */
  function GenerateOGImageURL(title: string, baseURL: Option<string>): (url: string)
    ensures var base := baseURL.GetOr(DefaultBaseURL);
            && |url| == |base| + |OGImagePath|
            && url[..|base|] == base
            && url[|base|..] == OGImagePath
  {
    baseURL.GetOr(DefaultBaseURL) + OGImagePath
  }

  /** A `{ "@type": ..., "name": ..., "url": ... }` node of the JSON-LD object. */
  datatype Organization = Organization(kind: string, name: string, url: string)

  /** The JSON-LD object without its two date fields. */
  datatype TechArticle = TechArticle(
    context: string,
    kind: string,
    headline: string,
    description: string,
    url: string,
    author: Organization,
    publisher: Organization,
    publisherLogo: string,
    inLanguage: string)

  datatype TechArticleProps = TechArticleProps(title: string, description: string, url: string, lang: string)

  /** `generateTechArticleSchema(props)`, date fields aside. */
  function GenerateTechArticleSchema(props: TechArticleProps): (article: TechArticle)
    ensures article.headline == props.title
    ensures article.description == props.description
    ensures article.url == props.url
    ensures article.inLanguage == props.lang
    ensures article.author.name == LocaleFor(props.lang).author
    ensures article.publisher.name == "Orionis Framework"
  {
    TechArticle(
      "https://schema.org",
      "TechArticle",
      props.title,
      props.description,
      props.url,
      Organization("Organization", LocalField(props.lang, Author), DefaultBaseURL),
      Organization("Organization", "Orionis Framework", DefaultBaseURL),
      DefaultBaseURL + "/favicon.svg",
      props.lang)
  }

  /* ---------------------------------------------------------------- */
  /* Properties                                                       */
  /* ---------------------------------------------------------------- */

  /**
   * The field-by-field fallback of the source amounts to choosing one
   * locale, because no default is empty.
   */
  lemma LocalFieldIsLocale(lang: string)
    ensures forall field :: LocalField(lang, field) == LocaleFor(lang).Get(field)
  {
  }

  /** The title does not depend on the language. */
  lemma TitleIgnoresLang(pageTitle: string, lang1: Option<string>, lang2: Option<string>)
    ensures GenerateSEOTitle(pageTitle, lang1) == GenerateSEOTitle(pageTitle, lang2)
  {
  }

  /** The image URL does not depend on the title. */
  lemma OGImageIgnoresTitle(title1: string, title2: string, baseURL: Option<string>)
    ensures GenerateOGImageURL(title1, baseURL) == GenerateOGImageURL(title2, baseURL)
  {
  }
}
