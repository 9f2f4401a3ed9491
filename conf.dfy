/**
 * The project settings the core consults. Their values are defined in the project's settings
 * module, which is not part of this model, so they enter as one parameter record.
 */
module Conf {

  datatype Config = Config(
    /** `LANGUAGE_CODE`: the site's default language. */
    languageCode: string,
    /** The codes of `LANGUAGES`, the language choices. */
    languages: seq<string>,
    /** The codes of `CURRENCIES`, the currency choices. */
    currencies: seq<string>,
    /** `CURRENCY_SYMBOLS`: currency code to display symbol. */
    currencySymbols: map<string, string>,
    /** The static URL of `DEFAULT_WINE_IMAGE`. */
    defaultWineImage: string)

  /** The currency a settings record takes when none is chosen. */
  const DefaultCurrency: string := "EUR"

  /**
   * A configuration whose defaults are among their own choices: `LANGUAGE_CODE` is one of the
   * codes of `LANGUAGES` and "EUR" is one of `CURRENCIES`. Nothing in the application checks
   * either. Django's own check also accepts a `LANGUAGE_CODE` whose generic variant alone is in
   * `LANGUAGES`, a configuration this predicate does not admit.
   */
  predicate WellFormed(cfg: Config)
  {
    cfg.languageCode in cfg.languages && DefaultCurrency in cfg.currencies
  }
}
