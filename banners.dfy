/** The status boxes the pages show (`st.error`, `st.warning`, `st.success`,
    `st.info`) and the symbols their messages start with. */
module Banners {

  /** One status box and its text. */
  datatype Banner = Error(text: string) | Warning(text: string) | Success(text: string) | Info(text: string)

  /** U+26A0 WARNING SIGN, followed in the pages by U+FE0F VARIATION
      SELECTOR-16. */
  const WarningSign: char := '\U{26A0}'
  const Vs16: char := '\U{FE0F}'

  /** U+2705 WHITE HEAVY CHECK MARK. */
  const CheckMark: char := '\U{2705}'

  /** U+1F6A8 POLICE CARS REVOLVING LIGHT, the siren of the error boxes. */
  const Siren: char := '\U{1F6A8}'
}
