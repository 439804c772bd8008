/** The Spanish/English switch: one click flips the language, shows its code
    in capitals, rewrites every translatable text from the table of the new
    language and stores the code as the saved preference; at start-up a
    saved preference other than Spanish clicks once. Storage is a
    parameter: the value read at start-up. */
module Language {
  import opened Wrappers
  import opened Text

  datatype Lang = Es | En

  /** The stored code. */
  function Code(l: Lang): string {
    match l
    case Es => "es"
    case En => "en"
  }

  /** The indicator text, `currentLang.toUpperCase()`. */
  function Badge(l: Lang): string {
    ToUpper(Code(l))
  }

  /** The indicator is the stored code in capitals: lower-casing it gives the
      code back, and it differs from the code. */
  lemma BadgeShowsCode(l: Lang)
    ensures ToLower(Badge(l)) == Code(l) && Badge(l) != Code(l)
  {
    var c := Code(l);
    assert Badge(l)[0] == ToUpperChar(c[0]);
    assert ToLower(Badge(l)) == [ToLowerChar(Badge(l)[0]), ToLowerChar(Badge(l)[1])];
  }

  /** `currentLang === 'es' ? 'en' : 'es'`. */
  function Toggle(l: Lang): (r: Lang)
    ensures r != l
  {
    if l == Es then En else Es
  }

  lemma ToggleInvolution(l: Lang)
    ensures Toggle(Toggle(l)) == l
  {
  }

  /** The translatable keys, in the table's order. */
  const Keys: seq<string> := [
    "Inicio", "Sobre Nosotros", "Tours", "Testimonios", "Reservas", "Contacto", "Reserva Ahora",
    "hero-title", "hero-subtitle", "btn-reserve", "btn-see-tours"]

  const SpanishTexts: seq<string> := [
    "Inicio", "Sobre Nosotros", "Tours", "Testimonios", "Reservas", "Contacto", "Reserva Ahora",
    "Descubre el Cielo Más Puro del Mundo en San Pedro de Atacama",
    "Tours astronómicos guiados por expertos: observación de estrellas, constelaciones y fenómenos celestes.",
    "Reserva Tu Tour", "Ver Tours"]

  const EnglishTexts: seq<string> := [
    "Home", "About Us", "Tours", "Testimonials", "Bookings", "Contact", "Book Now",
    "Discover the Purest Sky in the World in San Pedro de Atacama",
    "Expert-guided astronomical tours: star gazing, constellations and celestial phenomena.",
    "Book Your Tour", "See Tours"]

  /** The texts of each language, key by key: `Texts(l)[i]` is what every
      element tagged with `Keys[i]` shows in language `l`. */
  function Texts(l: Lang): seq<string> {
    match l
    case Es => SpanishTexts
    case En => EnglishTexts
  }

  /** Both tables cover every key, and the Spanish table is keyed by its own
      navigation texts. */
  lemma TextsAligned(l: Lang)
    ensures |Texts(l)| == |Keys|
    ensures forall i :: 0 <= i < 7 ==> SpanishTexts[i] == Keys[i]
  {
  }

  /** The page state the switch controls; `texts` is aligned with `Keys`. */
  datatype Page = Page(lang: Lang, badge: string, texts: seq<string>, saved: Option<string>)

  /** One click on the switch. */
  function Click(p: Page): (q: Page)
    ensures q.lang != p.lang && q.saved == Some(Code(q.lang))
    ensures ToLower(q.badge) == q.saved.value && q.badge != q.saved.value
    ensures |q.texts| == |Keys| && q.texts == Texts(q.lang)
  {
    var l := Toggle(p.lang);
    BadgeShowsCode(l);
    TextsAligned(l);
    Page(l, Badge(l), Texts(l), Some(Code(l)))
  }

  /** Two clicks restore the language, its badge, its texts and its saved
      code. */
  lemma ClickTwice(p: Page)
    ensures Click(Click(p)).lang == p.lang
    ensures Click(Click(p)) == Page(p.lang, Badge(p.lang), Texts(p.lang), Some(Code(p.lang)))
  {
  }

  /** The page as served: Spanish, with the indicator and texts the markup
      carries and nothing written yet. */
  function Initial(texts: seq<string>, badge: string, saved: Option<string>): Page {
    Page(Es, badge, texts, saved)
  }

  /** Start-up: a saved value that is present, non-empty and not `es` causes
      one click. */
  function Load(texts: seq<string>, badge: string, saved: Option<string>): (p: Page)
    ensures p.lang == En <==> saved.Some? && saved.value != "" && saved.value != "es"
    ensures p.lang == Es ==> p == Initial(texts, badge, saved)
    ensures p.lang == En ==> p == Click(Initial(texts, badge, saved))
  {
    var p := Initial(texts, badge, saved);
    if saved.Some? && saved.value != "" && saved.value != "es" then Click(p) else p
  }

  /** A stored code loads back as the language that stored it; any other
      non-empty value loads as English. */
  lemma SavedPreferenceRoundTrip(l: Lang, texts: seq<string>, badge: string, other: string)
    requires other != "" && other != "es"
    ensures Load(texts, badge, Some(Code(l))).lang == l
    ensures Load(texts, badge, Some(other)).lang == En
    ensures Load(texts, badge, None).lang == Es && Load(texts, badge, Some("")).lang == Es
  {
    CodeReadsBack(l);
  }

  /** Only Spanish is stored as `es`, and no code is empty. */
  lemma CodeReadsBack(l: Lang)
    ensures Code(l) != ""
    ensures Code(l) == "es" <==> l == Es
  {
    if l == En {
      assert Code(l)[0] == 'e' && Code(l)[1] == 'n';
    }
  }

  /** After start-up, clicking stores the code of the language now shown, so
      reloading with that value shows it again. */
  lemma ClickThenReload(texts: seq<string>, badge: string, saved: Option<string>, texts2: seq<string>, badge2: string)
    ensures var q := Click(Load(texts, badge, saved));
      Load(texts2, badge2, q.saved).lang == q.lang
  {
    var q := Click(Load(texts, badge, saved));
    CodeReadsBack(q.lang);
  }
}
