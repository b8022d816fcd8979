/**
 What the persona parser promises, proved about `Run` and `Parse`: every reply gives a
 complete record, blank lines are irrelevant, the last name header wins and steers
 nothing, bullets in the traits section become traits in order, plain lines continue the
 bio or the quote after one space, and a reply without headers gives the default record.
 */
module PersonaProperties {
  import opened Text
  import opened PersonaParser

  /** Whatever the reply, the record has a name, a bio, at least one trait and a quote,
      and every trait is non-empty with no surrounding whitespace. */
  lemma ParseIsComplete(response: string)
    ensures var p := Parse(response);
      p.name != [] && p.bio != [] && p.traits != [] && p.quote != [] && AllClean(p.traits)
  {
    var st := Run(Initial, Lines(response));
    RunKeepsClean(Initial, Lines(response));
    DefaultTraitsClean();
    assert Parse(response) == Finish(st);
  }

  lemma DefaultTraitsClean()
    ensures AllClean(DefaultTraits)
  {
    forall k | 0 <= k < |DefaultTraits| ensures CleanTrait(DefaultTraits[k]) {
      assert DefaultTraits[k] in DefaultTraits;
    }
  }

  /** The loop over `a + b` is the loop over `a` followed by the loop over `b`. */
  lemma {:induction false} RunAppend(st: ParseState, a: seq<string>, b: seq<string>)
    ensures Run(st, a + b) == Run(Run(st, a), b)
    decreases |b|
  {
    if b != [] {
      assert (a + b)[..|a + b| - 1] == a + b[..|b| - 1];
      RunAppend(st, a, b[..|b| - 1]);
    } else {
      assert a + b == a;
    }
  }

  lemma RunSingle(st: ParseState, raw: string)
    ensures Run(st, [raw]) == Step(st, raw)
  {
    assert [raw][..0] == [];
  }

  // ---------------------------------------------------------------------------------
  // Blank lines

  /** Inserting a blank line anywhere, or deleting one, does not change the outcome. */
  lemma BlankLineHasNoEffect(st: ParseState, a: seq<string>, w: string, b: seq<string>)
    requires IsBlank(w)
    ensures Run(st, a + [w] + b) == Run(st, a + b)
  {
    RunAppend(st, a + [w], b);
    RunAppend(st, a, [w]);
    RunSingle(Run(st, a), w);
    StepBlankLine(Run(st, a), w);
    RunAppend(st, a, b);
  }

  /** The lines that are not blank, in their order. */
  function NonBlank(lines: seq<string>): (r: seq<string>)
    ensures forall l :: l in r <==> l in lines && !IsBlank(l)
    ensures |r| <= |lines|
  {
    if lines == [] then []
    else
      var last := lines[|lines| - 1];
      NonBlank(lines[..|lines| - 1]) + if IsBlank(last) then [] else [last]
  }

  /** Filtering keeps the order: the non-blank lines of `a + b` are those of `a` followed by
      those of `b`. */
  lemma {:induction false} NonBlankAppend(a: seq<string>, b: seq<string>)
    ensures NonBlank(a + b) == NonBlank(a) + NonBlank(b)
    decreases |b|
  {
    if b == [] {
      assert a + b == a;
    } else {
      var init, last := b[..|b| - 1], b[|b| - 1];
      assert (a + b)[..|a + b| - 1] == a + init;
      NonBlankAppend(a, init);
      ConcatAssoc(NonBlank(a), NonBlank(init), if IsBlank(last) then [] else [last]);
    }
  }

  /** The loop gives the same state on the lines with every blank line removed. */
  lemma {:induction false} RunIgnoresBlankLines(st: ParseState, lines: seq<string>)
    ensures Run(st, lines) == Run(st, NonBlank(lines))
    decreases |lines|
  {
    if lines != [] {
      var init, last := lines[..|lines| - 1], lines[|lines| - 1];
      RunIgnoresBlankLines(st, init);
      if IsBlank(last) {
        BlankCase(st, init, last);
      } else {
        NonBlankCase(st, init, last);
      }
    }
  }

  lemma BlankCase(st: ParseState, init: seq<string>, last: string)
    requires IsBlank(last)
    ensures Run(st, init + [last]) == Run(st, init)
    ensures NonBlank(init + [last]) == NonBlank(init)
  {
    RunAppend(st, init, [last]);
    RunSingle(Run(st, init), last);
    StepBlankLine(Run(st, init), last);
    assert (init + [last])[..|init|] == init;
  }

  lemma NonBlankCase(st: ParseState, init: seq<string>, last: string)
    requires !IsBlank(last)
    ensures NonBlank(init + [last]) == NonBlank(init) + [last]
  {
    assert (init + [last])[..|init|] == init;
  }

  // ---------------------------------------------------------------------------------
  // The name

  /** A line that, once stripped, starts with "PERSONA ADI:" or "PERSONA NAME:". */
  predicate IsNameLine(raw: string) {
    StartsWithAny(Strip(raw), NameHeaders)
  }

  /** Two states that differ at most in the name. */
  predicate SameButName(a: ParseState, b: ParseState) {
    a.(name := []) == b.(name := [])
  }

  /** A line takes the name branch exactly when it starts with a name header, whatever
      the section. */
  lemma NameLineArm(section: Section, raw: string)
    ensures ArmOf(section, Strip(raw)) == NameHeader <==> IsNameLine(raw)
  {
    NameHeaderArm(section, Strip(raw));
  }

  lemma NameHeaderArm(section: Section, line: string)
    ensures ArmOf(section, line) == NameHeader <==> StartsWithAny(line, NameHeaders)
  {
    if StartsWithAny(line, NameHeaders) {
      var h :| h in NameHeaders && StartsWith(line, h);
      assert line[..|h|] == h;
    }
  }

  /** Only a name header touches the name. */
  lemma StepKeepsNameOffNameHeader(st: ParseState, raw: string)
    requires ArmOf(st.section, Strip(raw)) != NameHeader
    ensures Step(st, raw).name == st.name
  {
  }

  /** A line that is not a name header keeps the name. */
  lemma StepKeepsName(st: ParseState, raw: string)
    requires !IsNameLine(raw)
    ensures Step(st, raw).name == st.name
  {
    NameLineArm(st.section, raw);
    StepKeepsNameOffNameHeader(st, raw);
  }

  /** With no name header among `lines`, the name stays what it was. */
  lemma {:induction false} RunKeepsName(st: ParseState, lines: seq<string>)
    requires forall k :: 0 <= k < |lines| ==> !IsNameLine(lines[k])
    ensures Run(st, lines).name == st.name
    decreases |lines|
  {
    if lines != [] {
      RunKeepsName(st, lines[..|lines| - 1]);
      StepKeepsName(Run(st, lines[..|lines| - 1]), lines[|lines| - 1]);
    }
  }

  /** The name is the text of the LAST name header: a later one overrides an earlier one. */
  lemma LastNameHeaderWins(st: ParseState, a: seq<string>, h: string, b: seq<string>)
    requires IsNameLine(h)
    requires forall k :: 0 <= k < |b| ==> !IsNameLine(b[k])
    ensures ':' in Strip(h) && Run(st, a + [h] + b).name == HeaderText(Strip(h))
    ensures forall p :: p in NameHeaders && StartsWith(Strip(h), p) ==>
      Run(st, a + [h] + b).name == Strip(Strip(h)[|p|..])
  {
    RunAppend(st, a + [h], b);
    RunAppend(st, a, [h]);
    RunSingle(Run(st, a), h);
    NameStep(Run(st, a), h);
    RunKeepsName(Run(st, a + [h]), b);
    NameTextAfterHeader(Strip(h));
  }

  /** A name header sets the name and changes nothing else. */
  lemma NameStep(st: ParseState, raw: string)
    requires IsNameLine(raw)
    ensures ':' in Strip(raw) && Step(st, raw) == st.(name := HeaderText(Strip(raw)))
  {
    NameLineArm(st.section, raw);
    StepNameHeader(st, raw);
  }

  /** The text of a name header is what follows "PERSONA ADI:" or "PERSONA NAME:", stripped. */
  lemma NameTextAfterHeader(line: string)
    ensures forall p :: p in NameHeaders && StartsWith(line, p) ==>
      ':' in line && HeaderText(line) == Strip(line[|p|..])
  {
    forall p | p in NameHeaders && StartsWith(line, p)
      ensures ':' in line && HeaderText(line) == Strip(line[|p|..])
    {
      assert ColonOnlyAtEnd(p);
      HeaderTextAfterHeader(line, p);
    }
  }

  /** The name never influences the other fields or the section. */
  lemma StepIgnoresName(s1: ParseState, s2: ParseState, raw: string)
    requires SameButName(s1, s2)
    ensures SameButName(Step(s1, raw), Step(s2, raw))
  {
    assert s1.section == s2.section && s1.bio == s2.bio && s1.traits == s2.traits && s1.quote == s2.quote by {
      assert s1.(name := []).section == s2.(name := []).section;
      assert s1.(name := []).bio == s2.(name := []).bio;
      assert s1.(name := []).traits == s2.(name := []).traits;
      assert s1.(name := []).quote == s2.(name := []).quote;
    }
    match ArmOf(s1.section, Strip(raw))
    case BlankLine => StepEmptyLine(s1, raw); StepEmptyLine(s2, raw);
    case NameHeader => StepNameHeader(s1, raw); StepNameHeader(s2, raw);
    case BioHeader => StepBioHeader(s1, raw); StepBioHeader(s2, raw);
    case TraitsHeader => StepTraitsHeader(s1, raw); StepTraitsHeader(s2, raw);
    case QuoteHeader => StepQuoteHeader(s1, raw); StepQuoteHeader(s2, raw);
    case Bullet => StepBullet(s1, raw); StepBullet(s2, raw);
    case BioText => StepBioText(s1, raw); StepBioText(s2, raw);
    case QuoteText => StepQuoteText(s1, raw); StepQuoteText(s2, raw);
    case Ignored => StepIgnored(s1, raw); StepIgnored(s2, raw);
  }

  lemma {:induction false} RunIgnoresName(s1: ParseState, s2: ParseState, lines: seq<string>)
    requires SameButName(s1, s2)
    ensures SameButName(Run(s1, lines), Run(s2, lines))
    decreases |lines|
  {
    if lines != [] {
      var init, last := lines[..|lines| - 1], lines[|lines| - 1];
      RunIgnoresName(s1, s2, init);
      StepIgnoresName(Run(s1, init), Run(s2, init), last);
    }
  }

  /** A name header changes the name and nothing else: removing it leaves the section, the
      bio, the traits and the quote exactly as they were. */
  lemma NameLineChangesOnlyName(st: ParseState, a: seq<string>, h: string, b: seq<string>)
    requires IsNameLine(h)
    ensures SameButName(Run(st, a + [h] + b), Run(st, a + b))
  {
    var before := Run(st, a);
    RunAppend(st, a + [h], b);
    RunAppend(st, a, [h]);
    RunSingle(before, h);
    NameLineArm(before.section, h);
    StepNameHeader(before, h);
    RunAppend(st, a, b);
    RunIgnoresName(Step(before, h), before, b);
  }

  // ---------------------------------------------------------------------------------
  // The other headers

  /** A line takes the bio header branch exactly when it starts with "BİO:" or "BIO:",
      whatever the section: no name header starts like a bio header, so the name check
      tried first never catches one. */
  lemma BioHeaderArm(section: Section, line: string)
    ensures ArmOf(section, line) == BioHeader <==> StartsWithAny(line, BioHeaders)
  {
    if StartsWithAny(line, BioHeaders) {
      var h :| h in BioHeaders && StartsWith(line, h);
      assert line[..|h|][0] == h[0] == 'B';
      CharRulesOut(line, NameHeaders, 0);
    }
  }

  /** A line takes the traits header branch exactly when it starts with "ÖZELLİKLER:",
      "TRAITS:" or "FEATURES:", whatever the section. */
  lemma TraitsHeaderArm(section: Section, line: string)
    ensures ArmOf(section, line) == TraitsHeader <==> StartsWithAny(line, TraitsHeaders)
  {
    if StartsWithAny(line, TraitsHeaders) {
      var h :| h in TraitsHeaders && StartsWith(line, h);
      assert line[..|h|][0] == h[0] && h[0] in {'\U{00D6}', 'T', 'F'};
      CharRulesOut(line, NameHeaders, 0);
      CharRulesOut(line, BioHeaders, 0);
    }
  }

  /** A line takes the quote header branch exactly when it starts with "PAYLAŞIM SÖZÜ:",
      "SHARE QUOTE:" or "QUOTE:", whatever the section. "PAYLAŞIM" and "PERSONA" part at
      their second letter. */
  lemma QuoteHeaderArm(section: Section, line: string)
    ensures ArmOf(section, line) == QuoteHeader <==> StartsWithAny(line, QuoteHeaders)
  {
    if StartsWithAny(line, QuoteHeaders) {
      var h :| h in QuoteHeaders && StartsWith(line, h);
      assert line[..|h|][0] == h[0] && h[0] in {'P', 'S', 'Q'};
      CharRulesOut(line, BioHeaders, 0);
      CharRulesOut(line, TraitsHeaders, 0);
      if h[0] == 'P' {
        assert line[..|h|][1] == h[1] == 'A';
        CharRulesOut(line, NameHeaders, 1);
      } else {
        CharRulesOut(line, NameHeaders, 0);
      }
    }
  }

  /** A bio header opens the bio section, whatever section was open; a non-empty text
      replaces the bio and an empty one keeps it. Nothing else changes. */
  lemma BioHeaderStep(st: ParseState, raw: string)
    requires StartsWithAny(Strip(raw), BioHeaders)
    ensures ':' in Strip(raw)
    ensures var text := HeaderText(Strip(raw));
      Step(st, raw) == st.(section := BioSection, bio := if text != [] then text else st.bio)
  {
    BioHeaderArm(st.section, Strip(raw));
    StepBioHeader(st, raw);
  }

  /** A traits header opens the traits section, whatever section was open, and changes
      nothing else: any text after its colon is dropped. */
  lemma TraitsHeaderStep(st: ParseState, raw: string)
    requires StartsWithAny(Strip(raw), TraitsHeaders)
    ensures Step(st, raw) == st.(section := TraitsSection)
  {
    TraitsHeaderArm(st.section, Strip(raw));
    StepTraitsHeader(st, raw);
  }

  /** A quote header opens the quote section, whatever section was open; a non-empty text
      replaces the quote and an empty one keeps it. Nothing else changes. */
  lemma QuoteHeaderStep(st: ParseState, raw: string)
    requires StartsWithAny(Strip(raw), QuoteHeaders)
    ensures ':' in Strip(raw)
    ensures var text := HeaderText(Strip(raw));
      Step(st, raw) == st.(section := QuoteSection, quote := if text != [] then text else st.quote)
  {
    QuoteHeaderArm(st.section, Strip(raw));
    StepQuoteHeader(st, raw);
  }

  // ---------------------------------------------------------------------------------
  // The traits

  /** No header starts with "-", so a "-" line is never taken for a header. */
  lemma DashLineIsNoHeader(line: string)
    requires StartsWith(line, "-")
    ensures !IsHeader(line)
  {
    assert line[0] == line[..1][0];
    CharRulesOut(line, NameHeaders, 0);
    CharRulesOut(line, BioHeaders, 0);
    CharRulesOut(line, TraitsHeaders, 0);
    CharRulesOut(line, QuoteHeaders, 0);
  }

  /** The texts of the bullets in `lines`, in order, leaving out the empty ones: the traits
      the server means to collect from a traits section. */
  function BulletTexts(lines: seq<string>): (r: seq<string>)
    ensures |r| <= |lines|
  {
    if lines == [] then []
    else
      var t := BulletText(Strip(lines[|lines| - 1]));
      BulletTexts(lines[..|lines| - 1]) + if t != [] then [t] else []
  }

  /** Inside the traits section, a run of "-" lines appends exactly their non-empty texts
      to the traits, in input order, and the section stays open. */
  lemma {:induction false} BulletsBecomeTraits(st: ParseState, lines: seq<string>)
    requires st.section == TraitsSection
    requires forall k :: 0 <= k < |lines| ==> StartsWith(Strip(lines[k]), "-")
    ensures Run(st, lines) == st.(traits := st.traits + BulletTexts(lines))
    decreases |lines|
  {
    if lines == [] {
      assert st.traits + [] == st.traits;
    } else {
      var init, last := lines[..|lines| - 1], lines[|lines| - 1];
      BulletsBecomeTraits(st, init);
      BulletStep(Run(st, init), last);
      BulletTextsSnoc(init, last);
      var t := BulletText(Strip(last));
      if t != [] {
        ConcatAssoc(st.traits, BulletTexts(init), [t]);
      }
    }
  }

  /** In the traits section a "-" line appends its text when that is not empty. */
  lemma BulletStep(st: ParseState, raw: string)
    requires st.section == TraitsSection && StartsWith(Strip(raw), "-")
    ensures var t := BulletText(Strip(raw));
      Step(st, raw) == if t != [] then st.(traits := st.traits + [t]) else st
  {
    DashLineArm(st.section, Strip(raw));
    StepBullet(st, raw);
  }

  /** In the traits section a "-" line is a bullet. */
  lemma DashLineArm(section: Section, line: string)
    requires section == TraitsSection && StartsWith(line, "-")
    ensures ArmOf(section, line) == Bullet
  {
    DashLineIsNoHeader(line);
  }

  lemma BulletTextsSnoc(init: seq<string>, last: string)
    ensures var t := BulletText(Strip(last));
      BulletTexts(init + [last]) == if t != [] then BulletTexts(init) + [t] else BulletTexts(init)
  {
    assert (init + [last])[..|init|] == init;
  }

  /** A "-" line outside the traits section never adds a trait. */
  lemma NoTraitOutsideTraitsSection(st: ParseState, raw: string)
    requires st.section != TraitsSection
    ensures Step(st, raw).traits == st.traits
  {
    NoBulletOutsideTraitsSection(st.section, Strip(raw));
    StepKeepsTraitsOffBullet(st, raw);
  }

  lemma NoBulletOutsideTraitsSection(section: Section, line: string)
    requires section != TraitsSection
    ensures ArmOf(section, line) != Bullet
  {
  }

  // ---------------------------------------------------------------------------------
  // Bio and quote

  /** A line that continues the bio or the quote: not blank, no header, and not starting
      with one of the reserved words. */
  predicate IsPlainLine(raw: string) {
    var line := Strip(raw);
    line != [] && !IsHeader(line) && !StartsWithAny(line, ReservedPrefixes)
  }

  /** What a run of plain lines adds to the open field: each stripped line after one space. */
  function Continuation(lines: seq<string>): (r: string)
    ensures lines == [] <==> r == []
  {
    if lines == [] then []
    else Continuation(lines[..|lines| - 1]) + " " + Strip(lines[|lines| - 1])
  }

  lemma PlainLineArm(section: Section, line: string)
    requires line != [] && !IsHeader(line) && !StartsWithAny(line, ReservedPrefixes)
    ensures section == BioSection ==> ArmOf(section, line) == BioText
    ensures section == QuoteSection ==> ArmOf(section, line) == QuoteText
  {
  }

  /** In the bio (quote) section, plain lines are appended to the bio (quote), each after
      exactly one space; nothing else changes. */
  lemma {:induction false} PlainLinesContinueSection(st: ParseState, lines: seq<string>)
    requires st.section == BioSection || st.section == QuoteSection
    requires forall k :: 0 <= k < |lines| ==> IsPlainLine(lines[k])
    ensures Run(st, lines) ==
      if st.section == BioSection then st.(bio := st.bio + Continuation(lines))
      else st.(quote := st.quote + Continuation(lines))
    decreases |lines|
  {
    if lines == [] {
      assert st.bio + [] == st.bio && st.quote + [] == st.quote;
    } else {
      var init, last := lines[..|lines| - 1], lines[|lines| - 1];
      PlainLinesContinueSection(st, init);
      ContinuationSnoc(init, last);
      if st.section == BioSection {
        BioLineStep(Run(st, init), last);
        ConcatAssoc(st.bio, Continuation(init), " " + Strip(last));
      } else {
        QuoteLineStep(Run(st, init), last);
        ConcatAssoc(st.quote, Continuation(init), " " + Strip(last));
      }
    }
  }

  lemma ContinuationSnoc(init: seq<string>, last: string)
    ensures Continuation(init + [last]) == Continuation(init) + (" " + Strip(last))
  {
    assert (init + [last])[..|init|] == init;
  }

  lemma BioLineStep(st: ParseState, raw: string)
    requires st.section == BioSection && IsPlainLine(raw)
    ensures Step(st, raw) == st.(bio := st.bio + (" " + Strip(raw)))
  {
    PlainLineArm(st.section, Strip(raw));
    StepBioText(st, raw);
    ConcatAssoc(st.bio, " ", Strip(raw));
  }

  lemma QuoteLineStep(st: ParseState, raw: string)
    requires st.section == QuoteSection && IsPlainLine(raw)
    ensures Step(st, raw) == st.(quote := st.quote + (" " + Strip(raw)))
  {
    PlainLineArm(st.section, Strip(raw));
    StepQuoteText(st, raw);
    ConcatAssoc(st.quote, " ", Strip(raw));
  }

  /** A bio header followed by plain lines: the bio is the header's text (or the earlier bio
      when that text is empty) followed by the lines, each after one space. */
  lemma BioParagraph(st: ParseState, header: string, lines: seq<string>)
    requires StartsWithAny(Strip(header), BioHeaders)
    requires forall k :: 0 <= k < |lines| ==> IsPlainLine(lines[k])
    ensures ':' in Strip(header)
    ensures var text := HeaderText(Strip(header));
      Run(st, [header] + lines) ==
        st.(section := BioSection, bio := (if text != [] then text else st.bio) + Continuation(lines))
  {
    BioHeaderStep(st, header);
    RunAppend(st, [header], lines);
    RunSingle(st, header);
    PlainLinesContinueSection(Step(st, header), lines);
  }

  /** A quote header followed by plain lines: the quote is the header's text (or the earlier
      quote when that text is empty) followed by the lines, each after one space. */
  lemma QuoteParagraph(st: ParseState, header: string, lines: seq<string>)
    requires StartsWithAny(Strip(header), QuoteHeaders)
    requires forall k :: 0 <= k < |lines| ==> IsPlainLine(lines[k])
    ensures ':' in Strip(header)
    ensures var text := HeaderText(Strip(header));
      Run(st, [header] + lines) ==
        st.(section := QuoteSection, quote := (if text != [] then text else st.quote) + Continuation(lines))
  {
    QuoteHeaderStep(st, header);
    RunAppend(st, [header], lines);
    RunSingle(st, header);
    PlainLinesContinueSection(Step(st, header), lines);
  }

  // ---------------------------------------------------------------------------------
  // Defaults

  /** Before any header, no line has an effect. */
  lemma {:induction false} RunWithoutHeaders(st: ParseState, lines: seq<string>)
    requires st.section == NoSection
    requires forall k :: 0 <= k < |lines| ==> !IsHeader(Strip(lines[k]))
    ensures Run(st, lines) == st
    decreases |lines|
  {
    if lines != [] {
      RunWithoutHeaders(st, lines[..|lines| - 1]);
      StepWithoutHeader(st, lines[|lines| - 1]);
    }
  }

  /** With no section open, a line that is not a header changes nothing. */
  lemma StepWithoutHeader(st: ParseState, raw: string)
    requires st.section == NoSection && !IsHeader(Strip(raw))
    ensures Step(st, raw) == st
  {
    if ArmOf(st.section, Strip(raw)) == BlankLine {
      StepEmptyLine(st, raw);
    } else {
      NoSectionArm(Strip(raw));
      StepIgnored(st, raw);
    }
  }

  /** With no section open, a line that is not a header is blank or ignored. */
  lemma NoSectionArm(line: string)
    requires !IsHeader(line)
    ensures ArmOf(NoSection, line) in {BlankLine, Ignored}
  {
  }

  /** A reply in which no line is a recognised header yields exactly the default record. */
  lemma NoHeaderGivesDefault(response: string)
    requires forall k :: 0 <= k < |Lines(response)| ==> !IsHeader(Strip(Lines(response)[k]))
    ensures Parse(response) == DefaultPersona
  {
    RunWithoutHeaders(Initial, Lines(response));
  }
}
