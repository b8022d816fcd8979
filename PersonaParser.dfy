/**
 The parser that turns the language model's free-text persona description into a
 record with a name, a bio, a list of traits and a share quote.

 The reply is read line by line. One variable, the current section, remembers which
 part of the reply the parser is in; header lines (in Turkish or English) set a field
 or switch the section, `-` bullets inside the traits section become traits, and plain
 lines inside the bio or quote section are appended to that field after one space.
 Fields still empty at the end receive fixed defaults.

 `Step` is one turn of the loop, `Run` the loop over a list of lines and `Finish` the
 fallbacks after it; `Parse` puts them together. `ParsePersonaResponse` is the parser
 as the server runs it, proved equal to `Parse`. It splits the reply into lines, runs
 the loop `ParseLines` over them, which updates local variables and is proved equal to
 `Run`, and then applies the fallbacks, `ApplyFallbacks`, proved equal to `Finish`.
 `ParseLine`, the body of the loop, is proved equal to `Step`.
 */
module PersonaParser {
  import opened Text

  /** The dictionary the parser returns: `name`, `bio`, `traits`, `quote`. */
  datatype PersonaData = PersonaData(name: string, bio: string, traits: seq<string>, quote: string)

  /** The value of `current_section`: `None`, `'bio'`, `'traits'` or `'quote'`. */
  datatype Section = NoSection | BioSection | TraitsSection | QuoteSection

  /** Everything the loop has built so far, together with the current section. */
  datatype ParseState = ParseState(name: string, bio: string, traits: seq<string>, quote: string, section: Section)

  // Header prefixes; each ends with its only colon.
  const NameHeaders: seq<string> := ["PERSONA ADI:", "PERSONA NAME:"]
  /** "BİO:" and "BIO:" */
  const BioHeaders: seq<string> := ["B\U{0130}O:", "BIO:"]
  /** "ÖZELLİKLER:", "TRAITS:" and "FEATURES:" */
  const TraitsHeaders: seq<string> := ["\U{00D6}ZELL\U{0130}KLER:", "TRAITS:", "FEATURES:"]
  /** "PAYLAŞIM SÖZÜ:", "SHARE QUOTE:" and "QUOTE:" */
  const QuoteHeaders: seq<string> := ["PAYLA\U{015E}IM S\U{00D6}Z\U{00DC}:", "SHARE QUOTE:", "QUOTE:"]

  /** Prefixes that keep a line out of the bio and the quote: "PERSONA", "BİO",
      "ÖZELLİK", "PAYLAŞIM", "TRAITS" and "QUOTE". */
  const ReservedPrefixes: seq<string> :=
    ["PERSONA", "B\U{0130}O", "\U{00D6}ZELL\U{0130}K", "PAYLA\U{015E}IM", "TRAITS", "QUOTE"]

  /** The characters `lstrip('- ')` removes from the front of a bullet. */
  const BulletMarks: set<char> := {'-', ' '}

  const DefaultName: string := "Mysterious Persona"
  const DefaultBio: string := "A unique and fascinating individual."
  const DefaultTraits: seq<string> := ["Unique", "Mysterious", "Charismatic", "Powerful", "Inspiring"]
  const DefaultQuote: string := "Be yourself, everyone else is taken."

  /** The record returned when the reply yields nothing usable (and by the exception handler). */
  const DefaultPersona: PersonaData := PersonaData(DefaultName, DefaultBio, DefaultTraits, DefaultQuote)

  /** The state before the first line: every field empty and no section. */
  const Initial: ParseState := ParseState("", "", [], "", NoSection)

  /** Every header ends with a colon and has no other colon. */
  predicate WellFormedHeaders(headers: seq<string>) {
    forall h :: h in headers ==> ColonOnlyAtEnd(h)
  }

  /** Every header line contains a colon, so `split(':', 1)[1]` never fails on one. */
  lemma HeaderHasColon(line: string)
    requires IsHeader(line)
    ensures ':' in line
  {
    HeadersWellFormed();
    if StartsWithAny(line, NameHeaders) {
      HeaderListHasColon(line, NameHeaders);
    } else if StartsWithAny(line, BioHeaders) {
      HeaderListHasColon(line, BioHeaders);
    } else if StartsWithAny(line, TraitsHeaders) {
      HeaderListHasColon(line, TraitsHeaders);
    } else {
      HeaderListHasColon(line, QuoteHeaders);
    }
  }

  /** Each header the parser knows ends with its only colon. */
  lemma HeadersWellFormed()
    ensures WellFormedHeaders(NameHeaders) && WellFormedHeaders(BioHeaders)
    ensures WellFormedHeaders(TraitsHeaders) && WellFormedHeaders(QuoteHeaders)
  {
    NameAndBioHeadersWellFormed();
    TraitsAndQuoteHeadersWellFormed();
  }

  lemma NameAndBioHeadersWellFormed()
    ensures WellFormedHeaders(NameHeaders) && WellFormedHeaders(BioHeaders)
  {
  }

  lemma TraitsAndQuoteHeadersWellFormed()
    ensures WellFormedHeaders(TraitsHeaders) && WellFormedHeaders(QuoteHeaders)
  {
  }

  lemma HeaderListHasColon(line: string, headers: seq<string>)
    requires WellFormedHeaders(headers) && StartsWithAny(line, headers)
    ensures ':' in line
  {
    var h :| h in headers && StartsWith(line, h);
    AfterHeader(line, h);
  }

  /** A trait as the parser keeps it: non-empty, with nothing left for `strip()` to remove. */
  predicate CleanTrait(t: string) {
    t != [] && IsStripped(t)
  }

  /** `a` is a prefix of `b`: the traits in `a` are still there, in the same order. */
  predicate IsPrefix(a: seq<string>, b: seq<string>) {
    |a| <= |b| && forall k :: 0 <= k < |a| ==> a[k] == b[k]
  }

  predicate AllClean(traits: seq<string>) {
    forall k :: 0 <= k < |traits| ==> CleanTrait(traits[k])
  }

  /** A (stripped) line that one of the four header checks recognises. */
  predicate IsHeader(line: string) {
    StartsWithAny(line, NameHeaders) || StartsWithAny(line, BioHeaders) ||
    StartsWithAny(line, TraitsHeaders) || StartsWithAny(line, QuoteHeaders)
  }

  /** `response.strip().split('\n')`: the lines the loop visits. */
  function Lines(response: string): (lines: seq<string>)
    ensures |lines| >= 1 && Join(lines, "\n") == Strip(response)
  {
    Split(Strip(response), '\n')
  }

  /** `line.split(':', 1)[1].strip()`: the stripped text after the first colon. */
  function HeaderText(line: string): (text: string)
    requires ':' in line
    ensures IsStripped(text)
  {
    Strip(AfterFirst(line, ':'))
  }

  /** For a line that starts with a header, the header text is what follows the header. */
  lemma HeaderTextAfterHeader(line: string, h: string)
    requires ColonOnlyAtEnd(h) && StartsWith(line, h)
    ensures ':' in line && HeaderText(line) == Strip(line[|h|..])
  {
    AfterHeader(line, h);
  }

  /** `line.lstrip('- ').strip()`: the text of a bullet line. */
  function BulletText(line: string): (t: string)
    ensures t == [] || CleanTrait(t)
  {
    Strip(TrimStart(line, BulletMarks))
  }

  /** The first `k` characters of `line` are its whole leading run of `-` and spaces. */
  predicate MarksEndAt(line: string, k: nat) {
    k <= |line| && AllIn(line[..k], BulletMarks) && (k < |line| ==> line[k] !in BulletMarks)
  }

  /** The text of a bullet is what follows its leading run of `-` and spaces, stripped. */
  lemma BulletTextContent(line: string)
    ensures var k := |line| - |TrimStart(line, BulletMarks)|;
      MarksEndAt(line, k) && BulletText(line) == Strip(line[k..])
  {
    var r := TrimStart(line, BulletMarks);
    var k := |line| - |r|;
    assert r == line[k..];
    assert BulletText(line) == Strip(r);
    MarksEnd(line, r);
  }

  /** The suffix left after a prefix of marks, starting with no mark, ends the run. */
  lemma MarksEnd(line: string, r: string)
    requires |r| <= |line| && r == line[|line| - |r|..]
    requires AllIn(line[..|line| - |r|], BulletMarks) && (r == [] || r[0] !in BulletMarks)
    ensures MarksEndAt(line, |line| - |r|)
  {
    if r != [] {
      assert line[|line| - |r|] == r[0];
    }
  }

  /** The arms of the loop body, in the order the server tries them. */
  datatype Arm =
    | BlankLine      // empty after strip(): skipped
    | NameHeader     // "PERSONA ADI:" / "PERSONA NAME:"
    | BioHeader      // "BİO:" / "BIO:"
    | TraitsHeader   // "ÖZELLİKLER:" / "TRAITS:" / "FEATURES:"
    | QuoteHeader    // "PAYLAŞIM SÖZÜ:" / "SHARE QUOTE:" / "QUOTE:"
    | Bullet         // a "-" line inside the traits section
    | BioText        // a plain line inside the bio section
    | QuoteText      // a plain line inside the quote section
    | Ignored        // anything else

  /** Which arm a stripped line takes when the current section is `section`. */
  function ArmOf(section: Section, line: string): Arm
  {
    if line == [] then BlankLine
    else if StartsWithAny(line, NameHeaders) then NameHeader
    else if StartsWithAny(line, BioHeaders) then BioHeader
    else if StartsWithAny(line, TraitsHeaders) then TraitsHeader
    else if StartsWithAny(line, QuoteHeaders) then QuoteHeader
    else if StartsWith(line, "-") && section == TraitsSection then Bullet
    else if section == BioSection && !StartsWithAny(line, ReservedPrefixes) then BioText
    else if section == QuoteSection && !StartsWithAny(line, ReservedPrefixes) then QuoteText
    else Ignored
  }

  /** A line that takes a header arm is a header line. */
  lemma HeaderArmIsHeader(section: Section, line: string)
    requires ArmOf(section, line) in {NameHeader, BioHeader, TraitsHeader, QuoteHeader}
    ensures IsHeader(line)
  {
  }

  /** A line that takes the name, bio or quote header arm contains a colon. */
  lemma HeaderArmHasColon(section: Section, line: string)
    requires ArmOf(section, line) in {NameHeader, BioHeader, QuoteHeader}
    ensures ':' in line
  {
    HeaderArmIsHeader(section, line);
    HeaderHasColon(line);
  }

  /** One turn of the loop over the lines of the reply. */
  function Step(st: ParseState, raw: string): ParseState
  {
    var line := Strip(raw);
    match ArmOf(st.section, line)
    case BlankLine => st
    case NameHeader =>
      HeaderArmHasColon(st.section, line);
      st.(name := HeaderText(line))
    case BioHeader =>
      HeaderArmHasColon(st.section, line);
      var text := HeaderText(line);
      st.(section := BioSection, bio := if text != [] then text else st.bio)
    case TraitsHeader =>
      st.(section := TraitsSection)
    case QuoteHeader =>
      HeaderArmHasColon(st.section, line);
      var text := HeaderText(line);
      st.(section := QuoteSection, quote := if text != [] then text else st.quote)
    case Bullet =>
      var t := BulletText(line);
      if t != [] then st.(traits := st.traits + [t]) else st
    case BioText => st.(bio := st.bio + " " + line)
    case QuoteText => st.(quote := st.quote + " " + line)
    case Ignored => st
  }

  // What each arm does to the state, one lemma per arm.

  /** A line that is empty after `strip()` changes nothing. */
  lemma StepBlankLine(st: ParseState, raw: string)
    requires IsBlank(raw)
    ensures Step(st, raw) == st
  {
    StripBlank(raw);
  }

  /** A line that takes the blank arm changes nothing. */
  lemma StepEmptyLine(st: ParseState, raw: string)
    requires ArmOf(st.section, Strip(raw)) == BlankLine
    ensures Step(st, raw) == st
  {
  }

  /** A name header sets the name to its text (even an empty one) and changes nothing else,
      not even the section. */
  lemma StepNameHeader(st: ParseState, raw: string)
    requires ArmOf(st.section, Strip(raw)) == NameHeader
    ensures ':' in Strip(raw) && Step(st, raw) == st.(name := HeaderText(Strip(raw)))
  {
    HeaderArmHasColon(st.section, Strip(raw));
  }

  /** A bio header opens the bio section; a non-empty text replaces the bio, an empty one
      keeps it. */
  lemma StepBioHeader(st: ParseState, raw: string)
    requires ArmOf(st.section, Strip(raw)) == BioHeader
    ensures ':' in Strip(raw)
    ensures var text := HeaderText(Strip(raw));
      Step(st, raw) == st.(section := BioSection, bio := if text != [] then text else st.bio)
  {
    HeaderArmHasColon(st.section, Strip(raw));
  }

  /** A traits header only opens the traits section. */
  lemma StepTraitsHeader(st: ParseState, raw: string)
    requires ArmOf(st.section, Strip(raw)) == TraitsHeader
    ensures Step(st, raw) == st.(section := TraitsSection)
  {
  }

  /** A quote header opens the quote section; a non-empty text replaces the quote, an empty
      one keeps it. */
  lemma StepQuoteHeader(st: ParseState, raw: string)
    requires ArmOf(st.section, Strip(raw)) == QuoteHeader
    ensures ':' in Strip(raw)
    ensures var text := HeaderText(Strip(raw));
      Step(st, raw) == st.(section := QuoteSection, quote := if text != [] then text else st.quote)
  {
    HeaderArmHasColon(st.section, Strip(raw));
  }

  /** A plain line in the bio section is appended to the bio after one space. */
  lemma StepBioText(st: ParseState, raw: string)
    requires ArmOf(st.section, Strip(raw)) == BioText
    ensures Step(st, raw) == st.(bio := st.bio + " " + Strip(raw))
  {
  }

  /** A plain line in the quote section is appended to the quote after one space. */
  lemma StepQuoteText(st: ParseState, raw: string)
    requires ArmOf(st.section, Strip(raw)) == QuoteText
    ensures Step(st, raw) == st.(quote := st.quote + " " + Strip(raw))
  {
  }

  /** Any other line is dropped. */
  lemma StepIgnored(st: ParseState, raw: string)
    requires ArmOf(st.section, Strip(raw)) == Ignored
    ensures Step(st, raw) == st
  {
  }

  /** Only a bullet line touches the traits. */
  lemma StepKeepsTraitsOffBullet(st: ParseState, raw: string)
    requires ArmOf(st.section, Strip(raw)) != Bullet
    ensures Step(st, raw).traits == st.traits
  {
  }

  /** A bullet line appends its text, when that text is not empty. */
  lemma StepBullet(st: ParseState, raw: string)
    requires ArmOf(st.section, Strip(raw)) == Bullet
    ensures var t := BulletText(Strip(raw));
      Step(st, raw) == if t != [] then st.(traits := st.traits + [t]) else st
  {
  }

  /** The loop over `lines`, started in state `st`. */
  function Run(st: ParseState, lines: seq<string>): ParseState
    decreases |lines|
  {
    if lines == [] then st
    else Step(Run(st, lines[..|lines| - 1]), lines[|lines| - 1])
  }

  /** The loop over the first `i + 1` lines is one more step after the loop over the first `i`. */
  lemma RunPrefix(st: ParseState, lines: seq<string>, i: nat)
    requires i < |lines|
    ensures Run(st, lines[..i + 1]) == Step(Run(st, lines[..i]), lines[i])
  {
    assert lines[..i + 1][..i] == lines[..i];
  }

  /** Traits are only ever appended: the traits held before the loop are still there, in
      the same order, at its end. */
  lemma {:induction false} RunKeepsTraits(st: ParseState, lines: seq<string>)
    ensures IsPrefix(st.traits, Run(st, lines).traits)
    decreases |lines|
  {
    if lines != [] {
      RunKeepsTraits(st, lines[..|lines| - 1]);
      StepKeepsTraits(Run(st, lines[..|lines| - 1]), lines[|lines| - 1]);
    }
  }

  /** One step keeps the traits it starts with, in order. */
  lemma StepKeepsTraits(st: ParseState, raw: string)
    ensures IsPrefix(st.traits, Step(st, raw).traits)
  {
    if ArmOf(st.section, Strip(raw)) == Bullet {
      StepBullet(st, raw);
    } else {
      StepKeepsTraitsOffBullet(st, raw);
    }
  }

  lemma AppendClean(traits: seq<string>, t: string)
    requires AllClean(traits) && CleanTrait(t)
    ensures AllClean(traits + [t])
  {
  }

  /** Every trait the loop adds is clean. */
  lemma {:induction false} RunKeepsClean(st: ParseState, lines: seq<string>)
    requires AllClean(st.traits)
    ensures AllClean(Run(st, lines).traits)
    decreases |lines|
  {
    if lines != [] {
      var before := Run(st, lines[..|lines| - 1]);
      var last := lines[|lines| - 1];
      RunKeepsClean(st, lines[..|lines| - 1]);
      assert Run(st, lines) == Step(before, last);
      if ArmOf(before.section, Strip(last)) == Bullet {
        StepBullet(before, last);
        var t := BulletText(Strip(last));
        if t != [] {
          assert AllClean(before.traits + [t]) by {
            AppendClean(before.traits, t);
          }
        }
      } else {
        StepKeepsTraitsOffBullet(before, last);
      }
    }
  }

  /** The fallbacks after the loop: an empty field takes its default, a filled one is kept. */
  function Finish(st: ParseState): (p: PersonaData)
    ensures p.name == (if st.name == [] then DefaultName else st.name)
    ensures p.bio == (if st.bio == [] then DefaultBio else st.bio)
    ensures p.traits == (if st.traits == [] then DefaultTraits else st.traits)
    ensures p.quote == (if st.quote == [] then DefaultQuote else st.quote)
    ensures p.name != [] && p.bio != [] && p.traits != [] && p.quote != []
  {
    PersonaData(
      if st.name == [] then DefaultName else st.name,
      if st.bio == [] then DefaultBio else st.bio,
      if st.traits == [] then DefaultTraits else st.traits,
      if st.quote == [] then DefaultQuote else st.quote)
  }

  /** What `parse_persona_response` returns for `response`. */
  function Parse(response: string): PersonaData
  {
    Finish(Run(Initial, Lines(response)))
  }

  /** The parser as the server runs it: a loop over the lines that updates the section and
      the four fields, followed by the fallbacks. */
  method ParsePersonaResponse(response: string) returns (persona: PersonaData)
    ensures persona == Parse(response)
    ensures persona.name != [] && persona.bio != [] && persona.traits != [] && persona.quote != []
  {
    var lines := Split(Strip(response), '\n');
    var name, bio, traits, quote, section := ParseLines(lines);
    persona := ApplyFallbacks(name, bio, traits, quote, section);
  }

  /** The loop over the lines: one turn of the body per line, in order, starting with every
      field empty and no section. */
  method ParseLines(lines: seq<string>)
    returns (name: string, bio: string, traits: seq<string>, quote: string, section: Section)
    ensures ParseState(name, bio, traits, quote, section) == Run(Initial, lines)
  {
    name, bio, traits, quote := "", "", [], "";
    section := NoSection;
    for i := 0 to |lines|
      invariant ParseState(name, bio, traits, quote, section) == Run(Initial, lines[..i])
    {
      name, bio, traits, quote, section := ParseLine(name, bio, traits, quote, section, lines[i]);
      RunPrefix(Initial, lines, i);
    }
    assert lines[..|lines|] == lines;
  }

  /** The fallbacks after the loop: each field still empty takes its default. */
  method ApplyFallbacks(name0: string, bio0: string, traits0: seq<string>, quote0: string, section: Section)
    returns (persona: PersonaData)
    ensures persona == Finish(ParseState(name0, bio0, traits0, quote0, section))
  {
    var name, bio, traits, quote := name0, bio0, traits0, quote0;
    if name == [] {
      name := DefaultName;
    }
    if bio == [] {
      bio := DefaultBio;
    }
    if traits == [] {
      traits := DefaultTraits;
    }
    if quote == [] {
      quote := DefaultQuote;
    }
    persona := PersonaData(name, bio, traits, quote);
  }

  /** The body of the loop for one line: the server's chain of checks, in its order,
      applied to the section and the fields built so far. */
  method ParseLine(name0: string, bio0: string, traits0: seq<string>, quote0: string, section0: Section,
                   raw: string)
    returns (name: string, bio: string, traits: seq<string>, quote: string, section: Section)
    ensures ParseState(name, bio, traits, quote, section) ==
      Step(ParseState(name0, bio0, traits0, quote0, section0), raw)
  {
    name, bio, traits, quote, section := name0, bio0, traits0, quote0, section0;
    ghost var st := ParseState(name, bio, traits, quote, section);
    var line := Strip(raw);
    if line == [] {
      StepEmptyLine(st, raw);
      return;
    }
    if StartsWithAny(line, NameHeaders) {
      StepNameHeader(st, raw);
      name := HeaderText(line);
    } else if StartsWithAny(line, BioHeaders) {
      StepBioHeader(st, raw);
      section := BioSection;
      var text := HeaderText(line);
      if text != [] {
        bio := text;
      }
    } else if StartsWithAny(line, TraitsHeaders) {
      StepTraitsHeader(st, raw);
      section := TraitsSection;
    } else if StartsWithAny(line, QuoteHeaders) {
      StepQuoteHeader(st, raw);
      section := QuoteSection;
      var text := HeaderText(line);
      if text != [] {
        quote := text;
      }
    } else if StartsWith(line, "-") && section == TraitsSection {
      StepBullet(st, raw);
      var item := BulletText(line);
      if item != [] {
        traits := traits + [item];
      }
    } else if section == BioSection && !StartsWithAny(line, ReservedPrefixes) {
      StepBioText(st, raw);
      bio := bio + " " + line;
    } else if section == QuoteSection && !StartsWithAny(line, ReservedPrefixes) {
      StepQuoteText(st, raw);
      quote := quote + " " + line;
    } else {
      StepIgnored(st, raw);
    }
  }
}
