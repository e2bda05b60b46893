/** `POST /api/generate-resume`: validate the form, ask the external text
    generator for a resume, and fall back to a local plain-text template
    when the generator fails. The generator's answer is a parameter. */
module GenerateResume {
  import opened Wrappers
  import opened Strings

  datatype PersonalInfo = PersonalInfo(
    fullName: string,
    email: string,
    phone: Option<string>,
    location: Option<string>,
    linkedin: Option<string>,
    github: Option<string>)

  datatype Education = Education(
    institution: string, degree: string, startDate: string, endDate: string,
    description: Option<string>)

  datatype Experience = Experience(
    company: string, position: string, startDate: string, endDate: string,
    description: string)

  datatype Proficiency = Basic | Intermediate | Advanced | Fluent | Native

  datatype Language = Language(language: string, proficiency: Proficiency)

  /** The request body. Fields the validation reads may be missing. */
  datatype ResumeFormData = ResumeFormData(
    personalInfo: Option<PersonalInfo>,
    education: seq<Education>,
    experience: seq<Experience>,
    skills: seq<string>,
    languages: Option<seq<Language>>,
    targetPosition: string,
    additionalInfo: Option<string>)

  function ProficiencyName(p: Proficiency): string {
    match p
    case Basic => "Basic"
    case Intermediate => "Intermediate"
    case Advanced => "Advanced"
    case Fluent => "Fluent"
    case Native => "Native"
  }

  /** `${o}` in a template literal: a missing value prints as `undefined`. */
  function Show(o: Option<string>): string {
    if o.Some? then o.value else "undefined"
  }

  // ------------------------------------------------------------ contact line

  /** ` | value` for a truthy value, nothing otherwise. */
  function Segment(o: Option<string>): string {
    if Truthy(o) then " | " + o.value else ""
  }

  /** The template's third line. */
  function ContactLine(info: PersonalInfo): string {
    Show(info.location) + Segment(info.phone) + Segment(Some(info.email)) +
    Segment(info.linkedin) + Segment(info.github)
  }

  /** The value as a one-element list when truthy. */
  function Present(o: Option<string>): (r: seq<string>)
    ensures |r| <= 1
  {
    if Truthy(o) then [o.value] else []
  }

  /** Reference view of the contact line: the location, then phone, email,
      LinkedIn and GitHub, each only when given. */
  function ContactFields(info: PersonalInfo): (fields: seq<string>)
    ensures 1 <= |fields| <= 5 && fields[0] == Show(info.location)
  {
    [Show(info.location)] + Present(info.phone) + Present(Some(info.email)) +
    Present(info.linkedin) + Present(info.github)
  }

  /** Joining one more element appends the separator and the element. */
  lemma {:induction false} JoinSnoc(xs: seq<string>, y: string, sep: string)
    requires |xs| >= 1
    ensures Join(xs + [y], sep) == Join(xs, sep) + sep + y
    decreases |xs|
  {
    if |xs| == 1 {
      assert (xs + [y])[1..] == [y];
    } else {
      assert (xs + [y])[1..] == xs[1..] + [y];
      JoinSnoc(xs[1..], y, sep);
    }
  }

  lemma JoinPresent(xs: seq<string>, o: Option<string>)
    requires |xs| >= 1
    ensures Join(xs + Present(o), " | ") == Join(xs, " | ") + Segment(o)
  {
    if Truthy(o) {
      JoinSnoc(xs, o.value, " | ");
    } else {
      assert xs + Present(o) == xs;
    }
  }

  /** The contact line is the given fields joined with ` | `. */
  lemma ContactLineJoinsFields(info: PersonalInfo)
    ensures ContactLine(info) == Join(ContactFields(info), " | ")
  {
    var f0 := [Show(info.location)];
    var f1 := f0 + Present(info.phone);
    var f2 := f1 + Present(Some(info.email));
    var f3 := f2 + Present(info.linkedin);
    JoinPresent(f0, info.phone);
    JoinPresent(f1, Some(info.email));
    JoinPresent(f2, info.linkedin);
    JoinPresent(f3, info.github);
  }

  // ----------------------------------------------------------------- summary

  /** `xs.slice(0, n)`. */
  function Take(xs: seq<string>, n: nat): (r: seq<string>)
    ensures |r| == if |xs| < n then |xs| else n
  {
    if |xs| <= n then xs else xs[..n]
  }

  /** The summary used without `additionalInfo`. The skills are joined,
      split again on `, ` and the first three pieces kept. */
  function DefaultSummary(targetPosition: string, skills: seq<string>): string {
    "Experienced professional seeking a position as " + targetPosition +
    ". Bringing a strong background in " + Join(Take(Split(Join(skills, ", "), ", "), 3), ", ") +
    ", and a passion for delivering high-quality results."
  }

  /** `additionalInfo ||` the default summary. */
  function Summary(data: ResumeFormData): (r: string)
    ensures Truthy(data.additionalInfo) ==> r == data.additionalInfo.value
    ensures !Truthy(data.additionalInfo) ==>
      ("Experienced professional seeking a position as " + data.targetPosition) <= r &&
      r == DefaultSummary(data.targetPosition, data.skills)
  {
    if Truthy(data.additionalInfo) then data.additionalInfo.value
    else DefaultSummary(data.targetPosition, data.skills)
  }

  /** When no skill contains `, `, the default summary names exactly the
      first three skills (fewer when there are fewer). */
  lemma DefaultSummaryNamesFirstSkills(targetPosition: string, skills: seq<string>)
    requires forall k :: 0 <= k < |skills| ==> !Occurs(skills[k], ", ")
    ensures DefaultSummary(targetPosition, skills) ==
      "Experienced professional seeking a position as " + targetPosition +
      ". Bringing a strong background in " + Join(Take(skills, 3), ", ") +
      ", and a passion for delivering high-quality results."
  {
    if |skills| == 0 {
      assert Split(Join(skills, ", "), ", ") == [""];
    } else {
      forall k | 0 <= k < |skills| - 1 ensures CleanBefore(skills[k], ", ") {
        CleanBeforeComma(skills[k]);
      }
      SplitJoin(skills, ", ");
    }
  }

  // -------------------------------------------------------------- experience

  function Bullet(line: string): string {
    "• " + line
  }

  function Bullets(lines: seq<string>): (r: seq<string>)
    ensures |r| == |lines|
    ensures forall i :: 0 <= i < |lines| ==> r[i] == Bullet(lines[i])
  {
    if lines == [] then [] else [Bullet(lines[0])] + Bullets(lines[1..])
  }

  /** `description.split("\n").map((line) => "• " + line).join("\n")`. */
  function BulletedDescription(description: string): string {
    Join(Bullets(Split(description, "\n")), "\n")
  }

  /** For a one-character separator, occurring means containing that character. */
  lemma OccursSingle(p: string, c: char)
    ensures Occurs(p, [c]) <==> c in p
  {
    if c in p {
      var i :| 0 <= i < |p| && p[i] == c;
      assert p[i..i + 1] == [c];
      assert OccursAt(p, [c], i);
    }
    if Occurs(p, [c]) {
      var i: nat :| OccursAt(p, [c], i);
      assert p[i..i + 1][0] == p[i];
    }
  }

  /** The pieces of a split on one character do not contain it. */
  lemma {:induction false} SplitPiecesAvoid(s: string, c: char)
    ensures forall p :: p in Split(s, [c]) ==> c !in p
    decreases |s|
  {
    if |s| >= 1 {
      SplitPiecesAvoid(s[1..], c);
      if s[..1] != [c] {
        assert s[0] != c;
        var rest := Split(s[1..], [c]);
        assert rest[0] in rest;
        forall p | p in Split(s, [c]) ensures c !in p {
          if p != [s[0]] + rest[0] {
            assert p in rest[1..];
          }
        }
      }
    }
  }

  /** Every line of a bulleted description is a bullet for the corresponding
      line of the description. */
  lemma BulletedLines(description: string)
    ensures Split(BulletedDescription(description), "\n") == Bullets(Split(description, "\n"))
  {
    var lines := Split(description, "\n");
    var bullets := Bullets(lines);
    SplitPiecesAvoid(description, '\n');
    forall k | 0 <= k < |bullets| ensures !Occurs(bullets[k], "\n") {
      assert lines[k] in lines;
      OccursSingle(bullets[k], '\n');
    }
    forall k | 0 <= k < |bullets| - 1 ensures CleanBefore(bullets[k], "\n") {
      CleanBeforeSingle(bullets[k], '\n');
    }
    SplitJoin(bullets, "\n");
  }

  /** Two leading lines without a line break split off ahead of the rest. */
  lemma SplitTwoLines(first: string, second: string, rest: string)
    ensures '\n' !in first && '\n' !in second ==>
      Split(first + "\n" + second + "\n" + rest, "\n") == [first, second] + Split(rest, "\n")
  {
    if '\n' !in first && '\n' !in second {
      OccursSingle(first, '\n');
      CleanBeforeSingle(first, '\n');
      OccursSingle(second, '\n');
      CleanBeforeSingle(second, '\n');
      SplitAfterPiece(second, "\n", rest);
      SplitAfterPiece(first, "\n", second + "\n" + rest);
      assert first + "\n" + second + "\n" + rest == first + "\n" + (second + "\n" + rest);
    }
  }

  /** One experience entry: the position and company line, the dates line,
      then one bullet per line of the description. */
  function ExperienceText(e: Experience): (r: string)
    ensures '\n' !in e.position + ", " + e.company && '\n' !in e.startDate + " - " + e.endDate ==>
      Split(r, "\n") == [e.position + ", " + e.company, e.startDate + " - " + e.endDate] +
                        Bullets(Split(e.description, "\n"))
  {
    var title := e.position + ", " + e.company;
    var dates := e.startDate + " - " + e.endDate;
    SplitTwoLines(title, dates, BulletedDescription(e.description));
    BulletedLines(e.description);
    title + "\n" + dates + "\n" + BulletedDescription(e.description)
  }

  function ExperienceTexts(es: seq<Experience>): (r: seq<string>)
    ensures |r| == |es|
    ensures forall i :: 0 <= i < |es| ==> r[i] == ExperienceText(es[i])
  {
    if es == [] then [] else [ExperienceText(es[0])] + ExperienceTexts(es[1..])
  }

  // ------------------------------------------------------ education, languages

  /** One education entry: the degree line, the institution and dates line,
      then the description, or an empty line without one. */
  function EducationText(e: Education): (r: string)
    ensures '\n' !in e.degree && '\n' !in e.institution + ", " + e.startDate + " - " + e.endDate ==>
      Split(r, "\n") == [e.degree, e.institution + ", " + e.startDate + " - " + e.endDate] +
                        (if Truthy(e.description) then Split(e.description.value, "\n") else [""])
  {
    var place := e.institution + ", " + e.startDate + " - " + e.endDate;
    var description := if Truthy(e.description) then e.description.value else "";
    SplitTwoLines(e.degree, place, description);
    e.degree + "\n" + place + "\n" + description
  }

  function EducationTexts(es: seq<Education>): (r: seq<string>)
    ensures |r| == |es|
    ensures forall i :: 0 <= i < |es| ==> r[i] == EducationText(es[i])
  {
    if es == [] then [] else [EducationText(es[0])] + EducationTexts(es[1..])
  }

  /** `${language} (${proficiency})`. */
  function LanguageItem(l: Language): string {
    l.language + " (" + ProficiencyName(l.proficiency) + ")"
  }

  function LanguageItems(ls: seq<Language>): (r: seq<string>)
    ensures |r| == |ls|
    ensures forall i :: 0 <= i < |ls| ==> r[i] == LanguageItem(ls[i])
  {
    if ls == [] then [] else [LanguageItem(ls[0])] + LanguageItems(ls[1..])
  }

  /** The closing section: the languages with a heading, or nothing when
      the list is empty. */
  function LanguagesSection(ls: seq<Language>): (r: string)
    ensures r == "" <==> |ls| == 0
    ensures |ls| > 0 ==> "LANGUAGES\n" <= r
    ensures |ls| > 0 ==> Split(r, "\n") == ["LANGUAGES"] + Split(Join(LanguageItems(ls), ", "), "\n")
  {
    if |ls| > 0 then
      var items := Join(LanguageItems(ls), ", ");
      var r := "LANGUAGES\n" + items;
      assert r[..|"LANGUAGES\n"|] == "LANGUAGES\n";
      assert r == "LANGUAGES" + "\n" + items;
      SplitConcatChar("LANGUAGES", '\n', items);
      OccursSingle("LANGUAGES", '\n');
      SplitNoSeparator("LANGUAGES", "\n");
      r
    else ""
  }

  /** A language name without `, ` makes each entry of the languages line
      recoverable by splitting on `, `. */
  lemma LanguageItemsRecoverable(ls: seq<Language>)
    requires |ls| > 0
    requires forall i :: 0 <= i < |ls| ==> !Occurs(ls[i].language + " (", ", ")
    ensures Split(Join(LanguageItems(ls), ", "), ", ") == LanguageItems(ls)
  {
    var items := LanguageItems(ls);
    forall i | 0 <= i < |ls| ensures !Occurs(items[i], ", ") {
      ItemAvoidsComma(ls[i]);
    }
    forall k | 0 <= k < |items| - 1 ensures CleanBefore(items[k], ", ") {
      CleanBeforeComma(items[k]);
    }
    SplitJoin(items, ", ");
  }

  /** `name (Level)` has no `, ` when `name (` has none. */
  lemma ItemAvoidsComma(l: Language)
    requires !Occurs(l.language + " (", ", ")
    ensures !Occurs(LanguageItem(l), ", ")
  {
    var head := l.language + " (";
    var tail := ProficiencyName(l.proficiency) + ")";
    var item := LanguageItem(l);
    assert item == head + tail;
    assert ',' !in tail;
    forall i: nat | i + 2 <= |item| ensures !OccursAt(item, ", ", i) {
      if i + 2 <= |head| {
        assert item[i..i + 2] == head[i..i + 2];
        assert !OccursAt(head, ", ", i);
      } else if i == |head| - 1 {
        assert item[i] == '(';
      } else {
        assert item[i] == tail[i - |head|];
      }
    }
  }

  // -------------------------------------------------------------- template

  /** The heading block: name in capitals, target position, contact line. */
  function Heading(info: PersonalInfo, targetPosition: string): string {
    Upper(info.fullName) + "\n" + targetPosition + "\n" + ContactLine(info)
  }

  /** `generateResumeWithAI`: the local template. `languages.map` on a
      missing list throws, which is `None` here. */
  function FallbackResume(data: ResumeFormData): (r: Option<string>)
    requires data.personalInfo.Some?
    ensures r.Some? <==> data.languages.Some?
    ensures r.Some? ==>
      Split(r.value, "\n") ==
        Split(Heading(data.personalInfo.value, data.targetPosition), "\n") +
        Split(Sections(data, data.languages.value), "\n")
  {
    match data.languages
    case None => None
    case Some(ls) =>
      var heading := Heading(data.personalInfo.value, data.targetPosition);
      SplitConcatChar(heading, '\n', Sections(data, ls));
      Some(heading + "\n" + Sections(data, ls))
  }

  /** Everything after the heading's last line break: the summary,
      experience, education, skills and languages sections, a blank line
      before each. */
  function Sections(data: ResumeFormData, ls: seq<Language>): string {
    "\nSUMMARY\n" + Summary(data) +
    "\n\nEXPERIENCE\n" + Join(ExperienceTexts(data.experience), "\n\n") +
    "\n\nEDUCATION\n" + Join(EducationTexts(data.education), "\n\n") +
    "\n\nSKILLS\n" + Join(data.skills, ", ") +
    "\n\n" + LanguagesSection(ls)
  }

  /** A blank line between two texts adds one empty line between their lines. */
  lemma SplitBlankLine(x: string, y: string)
    ensures Split(x + "\n\n" + y, "\n") == Split(x, "\n") + [""] + Split(y, "\n")
  {
    assert x + "\n\n" + y == x + "\n" + ("" + "\n" + y);
    SplitConcatChar(x, '\n', "" + "\n" + y);
    SplitConcatChar("", '\n', y);
    assert Split("", "\n") == [""];
  }

  /** A section heading after a blank line is a line of its own. */
  lemma SplitSectionHeading(x: string, heading: string, y: string)
    requires '\n' !in heading
    ensures Split(x + ("\n\n" + heading + "\n") + y, "\n") ==
      Split(x, "\n") + ["", heading] + Split(y, "\n")
  {
    var t := heading + "\n" + y;
    HeadingRegrouped(x, heading, y);
    SplitBlankLine(x, t);
    SplitConcatChar(heading, '\n', y);
    OccursSingle(heading, '\n');
    SplitNoSeparator(heading, "\n");
    assert Split(t, "\n") == [heading] + Split(y, "\n");
  }

  /** The heading block regrouped so that the blank line comes first. */
  lemma HeadingRegrouped(x: string, heading: string, y: string)
    ensures x + ("\n\n" + heading + "\n") + y == x + "\n\n" + (heading + "\n" + y)
  {
  }

  /** A heading on the line after an empty first line. */
  lemma SplitOpeningHeading(heading: string, y: string)
    requires '\n' !in heading
    ensures Split(("\n" + heading + "\n") + y, "\n") == ["", heading] + Split(y, "\n")
  {
    var t := heading + "\n" + y;
    assert ("\n" + heading + "\n") + y == "" + "\n" + t;
    SplitConcatChar("", '\n', t);
    assert Split("", "\n") == [""];
    SplitConcatChar(heading, '\n', y);
    OccursSingle(heading, '\n');
    SplitNoSeparator(heading, "\n");
  }

  /** Experience and education entries are separated by one blank line. */
  lemma EntriesSeparatedByBlankLine(ts: seq<string>)
    requires |ts| >= 2
    ensures Split(Join(ts, "\n\n"), "\n") ==
      Split(ts[0], "\n") + [""] + Split(Join(ts[1..], "\n\n"), "\n")
  {
    SplitBlankLine(ts[0], Join(ts[1..], "\n\n"));
  }

  /** The lines of the section layout, for any section bodies. */
  lemma SectionsLayout(summary: string, experience: string, education: string,
                       skills: string, languages: string)
    ensures Split("\nSUMMARY\n" + summary + "\n\nEXPERIENCE\n" + experience +
                  "\n\nEDUCATION\n" + education + "\n\nSKILLS\n" + skills +
                  "\n\n" + languages, "\n") ==
      ["", "SUMMARY"] + Split(summary, "\n") + ["", "EXPERIENCE"] + Split(experience, "\n") +
      ["", "EDUCATION"] + Split(education, "\n") + ["", "SKILLS"] + Split(skills, "\n") +
      [""] + Split(languages, "\n")
  {
    var p1 := "\nSUMMARY\n" + summary;
    assert "\nSUMMARY\n" == "\n" + "SUMMARY" + "\n";
    SplitOpeningHeading("SUMMARY", summary);
    var p2 := p1 + "\n\nEXPERIENCE\n" + experience;
    assert "\n\nEXPERIENCE\n" == "\n\n" + "EXPERIENCE" + "\n";
    SplitSectionHeading(p1, "EXPERIENCE", experience);
    var p3 := p2 + "\n\nEDUCATION\n" + education;
    assert "\n\nEDUCATION\n" == "\n\n" + "EDUCATION" + "\n";
    SplitSectionHeading(p2, "EDUCATION", education);
    var p4 := p3 + "\n\nSKILLS\n" + skills;
    assert "\n\nSKILLS\n" == "\n\n" + "SKILLS" + "\n";
    SplitSectionHeading(p3, "SKILLS", skills);
    SplitBlankLine(p4, languages);
  }

  /** The lines after the contact line: each section in order, under its
      heading and after a blank line; the skills joined with `, `. */
  lemma SectionsLines(data: ResumeFormData, ls: seq<Language>)
    ensures Split(Sections(data, ls), "\n") ==
      ["", "SUMMARY"] + Split(Summary(data), "\n") +
      ["", "EXPERIENCE"] + Split(Join(ExperienceTexts(data.experience), "\n\n"), "\n") +
      ["", "EDUCATION"] + Split(Join(EducationTexts(data.education), "\n\n"), "\n") +
      ["", "SKILLS"] + Split(Join(data.skills, ", "), "\n") +
      [""] + Split(LanguagesSection(ls), "\n")
  {
    SectionsLayout(Summary(data), Join(ExperienceTexts(data.experience), "\n\n"),
                   Join(EducationTexts(data.education), "\n\n"), Join(data.skills, ", "),
                   LanguagesSection(ls));
  }

  /** Upper-casing keeps a string free of line breaks. */
  lemma UpperKeepsLines(s: string)
    requires '\n' !in s
    ensures '\n' !in Upper(s)
  {
    forall i | 0 <= i < |s| ensures Upper(s)[i] != '\n' {
      assert s[i] in s;
    }
  }

  /** The first three lines of the template are the capitalised name, the
      target position and the contact line. */
  lemma ResumeOpeningLines(data: ResumeFormData)
    requires data.personalInfo.Some? && data.languages.Some?
    requires '\n' !in data.personalInfo.value.fullName
    requires '\n' !in data.targetPosition
    requires '\n' !in ContactLine(data.personalInfo.value)
    ensures var lines := Split(FallbackResume(data).value, "\n");
      |lines| >= 3 &&
      lines[0] == Upper(data.personalInfo.value.fullName) &&
      lines[1] == data.targetPosition &&
      lines[2] == ContactLine(data.personalInfo.value)
  {
    var info := data.personalInfo.value;
    var name := Upper(info.fullName);
    var contact := ContactLine(info);
    var rest := Sections(data, data.languages.value);
    assert FallbackResume(data).value == name + "\n" + data.targetPosition + "\n" + contact + "\n" + rest;
    UpperKeepsLines(info.fullName);
    SplitThreeLines(name, data.targetPosition, contact, rest);
  }

  /** Three leading lines without a line break split off ahead of the rest. */
  lemma SplitThreeLines(first: string, second: string, third: string, rest: string)
    requires '\n' !in first && '\n' !in second && '\n' !in third
    ensures var lines := Split(first + "\n" + second + "\n" + third + "\n" + rest, "\n");
      |lines| >= 3 && lines[0] == first && lines[1] == second && lines[2] == third
  {
    OccursSingle(third, '\n');
    CleanBeforeSingle(third, '\n');
    SplitAfterPiece(third, "\n", rest);
    SplitTwoLines(first, second, third + "\n" + rest);
    assert first + "\n" + second + "\n" + third + "\n" + rest == first + "\n" + second + "\n" + (third + "\n" + rest);
  }

  // ----------------------------------------------------------------- route

  /** The JSON reply: status, resume text, and whether the external
      generator wrote it. */
  datatype Reply = Reply(code: int, text: string, usingOpenAI: bool)

  /** The required fields: a full name and a target position. */
  predicate HasRequiredFields(data: ResumeFormData) {
    data.personalInfo.Some? && data.personalInfo.value.fullName != "" && data.targetPosition != ""
  }

  /** `POST`. `body` is the parsed JSON (none when parsing fails); `primary`
      is the external generator's text, none when it throws. */
  function Post(body: Option<ResumeFormData>, primary: Option<string>): (r: Reply)
    ensures r.code in {200, 400, 500}
    ensures r.code == 400 <==> body.Some? && !HasRequiredFields(body.value)
    ensures r.code == 200 && r.usingOpenAI <==>
      body.Some? && HasRequiredFields(body.value) && primary.Some?
    ensures r.code == 200 && r.usingOpenAI ==> r.text == primary.value
    ensures r.code == 200 && !r.usingOpenAI <==>
      body.Some? && HasRequiredFields(body.value) && primary.None? && body.value.languages.Some?
    ensures r.code == 200 && !r.usingOpenAI ==> r.text == FallbackResume(body.value).value
  {
    match body
    case None => Reply(500, "", false)
    case Some(data) =>
      if !HasRequiredFields(data) then Reply(400, "", false)
      else if primary.Some? then Reply(200, primary.value, true)
      else
        match FallbackResume(data)
        case None => Reply(500, "", false)
        case Some(text) => Reply(200, text, false)
  }
}
