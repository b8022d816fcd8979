/**
 The table of persona themes and the image style each one asks for. A theme the table
 does not know is drawn as a plain professional portrait.
 */
module Themes {

  const MidnightCeo: string := "Midnight CEO"
  const DarkCharmer: string := "Dark Charmer"
  const AlphaStrategist: string := "Alpha Strategist"
  const GlamDiva: string := "Glam Diva"

  /** The style description of each known theme. */
  const PersonaThemes: map<string, string> := map[
    MidnightCeo := "powerful business leader, sophisticated dark suit, confident pose, luxurious office setting, dramatic lighting, cinematic portrait",
    DarkCharmer := "mysterious and charismatic, elegant dark fashion, intense gaze, moody atmosphere, artistic portrait, cinematic lighting",
    AlphaStrategist := "strategic thinker, sharp professional attire, commanding presence, modern setting, confident expression, high-quality portrait",
    GlamDiva := "glamorous and stylish, fashion-forward outfit, radiant expression, luxurious background, editorial style portrait, stunning lighting"
  ]

  /** The style used for any theme missing from the table. */
  const FallbackStyle: string := "professional portrait"

  /** `PERSONA_THEMES.get(theme, "professional portrait")`: a known theme gets its entry,
      and the fallback comes back exactly for the themes the table does not know, since no
      entry equals it. */
  function StyleFor(theme: string): (style: string)
    ensures theme in PersonaThemes ==> style == PersonaThemes[theme]
    ensures style == FallbackStyle <==> theme !in PersonaThemes
  {
    if theme in PersonaThemes then
      assert PersonaThemes[theme] != FallbackStyle by {
        assert |FallbackStyle| == 21;
      }
      PersonaThemes[theme]
    else
      FallbackStyle
  }

  /** The table knows exactly the four themes. */
  lemma KnownThemes()
    ensures PersonaThemes.Keys == {MidnightCeo, DarkCharmer, AlphaStrategist, GlamDiva}
  {
  }

  /** Each known theme gets its own style description. */
  lemma StyleOfKnownThemes()
    ensures StyleFor("Midnight CEO") == "powerful business leader, sophisticated dark suit, confident pose, luxurious office setting, dramatic lighting, cinematic portrait"
    ensures StyleFor("Dark Charmer") == "mysterious and charismatic, elegant dark fashion, intense gaze, moody atmosphere, artistic portrait, cinematic lighting"
    ensures StyleFor("Alpha Strategist") == "strategic thinker, sharp professional attire, commanding presence, modern setting, confident expression, high-quality portrait"
    ensures StyleFor("Glam Diva") == "glamorous and stylish, fashion-forward outfit, radiant expression, luxurious background, editorial style portrait, stunning lighting"
  {
  }

  /** The fallback style is returned for exactly the four names outside the table. */
  lemma FallbackExactlyForUnknownThemes(theme: string)
    ensures StyleFor(theme) == FallbackStyle <==>
      theme !in {MidnightCeo, DarkCharmer, AlphaStrategist, GlamDiva}
  {
    KnownThemes();
  }
}
