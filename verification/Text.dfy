/** .NET text. A System.String is a sequence of UTF-16 code units:
    String.Length, String.Substring and the nvarchar column width all count
    code units, so a character outside the Basic Multilingual Plane counts
    twice, and a cut may split a surrogate pair. */
module Text {
  /** One UTF-16 code unit (a System.Char). */
  newtype CodeUnit = x: int | 0 <= x < 0x1_0000

  /** A non-null System.String. */
  type ClrString = seq<CodeUnit>
}
