/** The training types shared by the tracker and the settings editor, and the
    glyphs both pages show for them. */
module Categories {

  /** A training type a day can be assigned. */
  datatype Category = Daily | Mag | Challenge | Rest

  /** The three types that have an exercise list and a completion glyph. */
  type Kind = c: Category | c != Rest witness Daily

  /** The fixed display order of the three kinds: daily, mag, challenge. */
  const Order: seq<Kind> := [Daily, Mag, Challenge]

  /** Position of a kind in Order. */
  function Rank(k: Kind): (n: nat)
    ensures n < |Order| && Order[n] == k
  {
    if k == Daily then 0 else if k == Mag then 1 else 2
  }

  /** The glyph of a kind: a single character, never a space. */
  function GlyphChar(k: Kind): (g: char)
    ensures g != ' ' && g != PendingChar && g != RestChar
  {
    if k == Daily then '🙌' else if k == Mag then '💪' else '🔥'
  }

  /** The glyph of a kind as a one-character string. */
  function Glyph(k: Kind): (s: string)
    ensures |s| == 1 && s[0] == GlyphChar(k)
  {
    [GlyphChar(k)]
  }

  const RestChar: char := '😴'
  const PendingChar: char := '○'

  /** Icon of a rest day. */
  const RestIcon: string := [RestChar]
  /** Icon of a day with no completed kind. */
  const PendingIcon: string := [PendingChar]

  /** Different kinds have different glyphs, so a glyph identifies its kind. */
  lemma GlyphInjective(a: Kind, b: Kind)
    ensures GlyphChar(a) == GlyphChar(b) <==> a == b
  {
  }
}
