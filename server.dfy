/** The two endpoints of server.js, `/generate-report` and `/generate-ticket`,
    separated from HTTP: a request body goes in, together with the date text
    and the completion service's reply, and a response comes out, together
    with whether the completion service was called. */
module Server {
  import opened Wrappers
  import opened Text

  /** A member of the JSON request body: absent, or a string. */
  datatype Field = Absent | Str(s: string)

  /** JavaScript truthiness of a member: present and not the empty string. */
  predicate Truthy(f: Field) {
    f.Str? && f.s != ""
  }

  /** The `=== "yes"` test on a flag. */
  predicate IsYes(f: Field) {
    f == Str("yes")
  }

  /** `${f}` inside a template literal: the string, or "undefined". */
  function Interpolate(f: Field): string {
    match f
    case Absent => "undefined"
    case Str(s) => s
  }

  /** One individual in custody as the client sends it. */
  datatype Inmate = Inmate(name: Field, id: Field)

  /** The request body both endpoints destructure. */
  datatype Submission = Submission(
    officerName: Field,
    badgeNumber: Field,
    assignedArea: Field,
    incidentTime: Field,
    incidentDetails: Field,
    healthcare: Field,
    mentalHealth: Field,
    restrictiveHousing: Field,
    inmates: Option<seq<Inmate>>)

  /** What the completion service gave back: a failed call, or a reply with
      its list of choices (each choice's message content). */
  datatype Completion = TransportError | Reply(choices: seq<string>)

  /** The HTTP outcome: status 400 or 500 with a JSON error, or status 200
      with a JSON object holding one text member. */
  datatype Response =
    | BadRequest(error: string)
    | Ok(member: string, text: string)
    | ServerError(error: string)

  // ---------------------------------------------------------------------
  // Validation
  // ---------------------------------------------------------------------

  /** The test that answers 400 before anything else happens. */
  predicate Rejects(s: Submission) {
    !Truthy(s.officerName) || !Truthy(s.badgeNumber) || !Truthy(s.assignedArea) ||
    !Truthy(s.incidentTime) || !Truthy(s.incidentDetails) ||
    s.inmates == None || |s.inmates.value| == 0
  }

  /** The three flags and the individuals' names and identifiers play no part
      in validation: only how many individuals there are matters. */
  lemma RejectsIgnoresFlagsAndEntries(s: Submission, h: Field, m: Field, r: Field, entries: seq<Inmate>)
    requires s.inmates.Some? ==> |entries| == |s.inmates.value|
    ensures Rejects(s) == Rejects(s.(healthcare := h, mentalHealth := m, restrictiveHousing := r,
                                     inmates := if s.inmates.Some? then Some(entries) else None))
  {
  }

  /** The individuals of a submission that passed validation. */
  function InmatesOf(s: Submission): seq<Inmate> {
    if s.inmates.Some? then s.inmates.value else []
  }

  // ---------------------------------------------------------------------
  // Text pieces shared by the report prompt and the ticket
  // ---------------------------------------------------------------------

  /** The indentation inside the template literals. */
  const Indent := "            "

  /** The pieces of a template literal, written one after the other. */
  function Concat(pieces: seq<string>): string
    decreases |pieces|
  {
    if pieces == [] then "" else pieces[0] + Concat(pieces[1..])
  }

  /** The opening template literal, with its line breaks and indentation;
      `observed` is "incident" for the report and "violation" for the
      ticket. */
  function Opening(date: string, s: Submission, observed: string): string {
    Concat([
      "\n", Indent, "On ", date, ", I C/O ", Interpolate(s.officerName),
      ", Badge #", Interpolate(s.badgeNumber), ", was assigned to ", Interpolate(s.assignedArea), ".\n",
      Indent, "At approximately ", Interpolate(s.incidentTime),
      ", while conducting my assigned duties, I observed the following ", observed, ":\n",
      Indent, "\n",
      Indent, "Incident Summary: ", Interpolate(s.incidentDetails), "\n        "])
  }

  /** "name (ID: id)", as pushed onto `inmateNamesList`. */
  function Entry(inmate: Inmate): string {
    Interpolate(inmate.name) + " (ID: " + Interpolate(inmate.id) + ")"
  }

  /** The entries of all individuals, in input order. */
  function Entries(inmates: seq<Inmate>): (r: seq<string>)
    ensures |r| == |inmates|
    ensures forall i :: 0 <= i < |inmates| ==> r[i] == Entry(inmates[i])
  {
    seq(|inmates|, i requires 0 <= i < |inmates| => Entry(inmates[i]))
  }

  /** The line for the individual numbered `k`. */
  function InmateLine(k: nat, inmate: Inmate): string {
    "\nInmate " + Decimal(k) + ": " + Entry(inmate)
  }

  /** The lines for `inmates`, numbered from `start + 1` on. */
  function InmateLines(inmates: seq<Inmate>, start: nat): string
    decreases |inmates|
  {
    if inmates == [] then ""
    else InmateLine(start + 1, inmates[0]) + InmateLines(inmates[1..], start + 1)
  }

  /** The lines of two lists one after the other are the lines of the first,
      then those of the second numbered on from where the first stopped. */
  lemma {:induction false} InmateLinesAppend(a: seq<Inmate>, b: seq<Inmate>, start: nat)
    ensures InmateLines(a + b, start) == InmateLines(a, start) + InmateLines(b, start + |a|)
    decreases |a|
  {
    if a == [] {
      assert a + b == b;
    } else {
      assert (a + b)[1..] == a[1..] + b;
      InmateLinesAppend(a[1..], b, start + 1);
    }
  }

  lemma ConcatAssoc(a: string, b: string, c: string)
    ensures a + (b + c) == (a + b) + c
  {
  }

  /** Individual `i` gets the line numbered `i + 1`, after the lines of the
      individuals before it and before those of the individuals after it. */
  lemma InmateLineAt(inmates: seq<Inmate>, i: nat)
    requires i < |inmates|
    ensures InmateLines(inmates, 0) ==
      InmateLines(inmates[..i], 0) + InmateLine(i + 1, inmates[i]) + InmateLines(inmates[i + 1..], i + 1)
  {
    assert inmates == inmates[..i] + inmates[i..];
    InmateLinesAppend(inmates[..i], inmates[i..], 0);
    var tail := inmates[i..];
    assert tail[0] == inmates[i] && tail[1..] == inmates[i + 1..];
    assert InmateLines(tail, i) == InmateLine(i + 1, inmates[i]) + InmateLines(inmates[i + 1..], i + 1);
    ConcatAssoc(InmateLines(inmates[..i], 0), InmateLine(i + 1, inmates[i]), InmateLines(inmates[i + 1..], i + 1));
  }

  /** One more individual adds one more line, numbered after the others. */
  lemma {:induction false} InmateLinesSnoc(a: seq<Inmate>, x: Inmate)
    ensures InmateLines(a + [x], 0) == InmateLines(a, 0) + InmateLine(|a| + 1, x)
  {
    InmateLinesAppend(a, [x], 0);
    assert [x][1..] == [];
    assert InmateLines([x], |a|) == InmateLine(|a| + 1, x) + "";
  }

  lemma {:induction false} EntriesSnoc(a: seq<Inmate>, x: Inmate)
    ensures Entries(a + [x]) == Entries(a) + [Entry(x)]
  {
    var l, r := Entries(a + [x]), Entries(a) + [Entry(x)];
    assert |l| == |r|;
    forall i | 0 <= i < |l| ensures l[i] == r[i] {
      if i < |a| { assert (a + [x])[i] == a[i]; }
    }
  }

  /** Runs the `forEach` over the individuals: appends each one's line to
      `prompt` and collects the entries for the closing sentence. */
  method AppendInmates(prompt: string, inmates: seq<Inmate>) returns (p: string, names: seq<string>)
    ensures p == prompt + InmateLines(inmates, 0)
    ensures names == Entries(inmates)
  {
    p, names := prompt, [];
    var index := 0;
    while index < |inmates|
      invariant 0 <= index <= |inmates|
      invariant p == prompt + InmateLines(inmates[..index], 0)
      invariant names == Entries(inmates[..index])
    {
      assert inmates[..index + 1] == inmates[..index] + [inmates[index]];
      InmateLinesSnoc(inmates[..index], inmates[index]);
      EntriesSnoc(inmates[..index], inmates[index]);
      ConcatAssoc(prompt, InmateLines(inmates[..index], 0), InmateLine(index + 1, inmates[index]));
      p := p + InmateLine(index + 1, inmates[index]);
      names := names + [Entry(inmates[index])];
      index := index + 1;
    }
    assert inmates[..index] == inmates;
  }

  /** The fixed closing sentence naming every individual. */
  function Closing(names: seq<string>): string {
    "\n\nProper chain of command was notified, and " + Join(names, ", ") +
    " was identified by state-issued ID and Offender 360."
  }

  /** The words every conditional sentence starts with. */
  const Subject := "\nThe individual was "
  const TakenTo := Subject + "taken to "
  const HealthcareUnit := TakenTo + "the " + "Healthcare unit "
  /** The sentence added for healthcare = "yes" in the report. */
  const ReportHealthcare := HealthcareUnit + "where they were evaluated " + "by healthcare and mental health staff."
  /** The sentence added for healthcare = "yes" in the ticket. */
  const TicketHealthcare := HealthcareUnit + "for evaluation."
  /** The sentence added for mentalHealth = "yes". */
  const MentalHealth := Subject + "evaluated " + "by mental health staff."
  /** The sentence added for restrictiveHousing = "yes". */
  const RestrictiveHousing := TakenTo + "N2 " + "restrictive housing."

  /** The conditional sentences, in their fixed order; `healthcare` is the
      report's or the ticket's healthcare sentence. */
  function Conditions(healthcare: string, s: Submission): string {
    (if IsYes(s.healthcare) then healthcare else "") +
    (if IsYes(s.mentalHealth) then MentalHealth else "") +
    (if IsYes(s.restrictiveHousing) then RestrictiveHousing else "")
  }

  /** The three `if (flag === "yes") prompt += sentence` statements. */
  method AppendConditions(prompt: string, healthcare: string, s: Submission) returns (p: string)
    ensures p == prompt + Conditions(healthcare, s)
  {
    var h := if IsYes(s.healthcare) then healthcare else "";
    var m := if IsYes(s.mentalHealth) then MentalHealth else "";
    var r := if IsYes(s.restrictiveHousing) then RestrictiveHousing else "";
    p := prompt;
    if s.healthcare == Str("yes") { p := p + healthcare; }
    assert p == prompt + h;
    if s.mentalHealth == Str("yes") { p := p + MentalHealth; }
    assert p == (prompt + h) + m;
    if s.restrictiveHousing == Str("yes") { p := p + RestrictiveHousing; }
    assert p == ((prompt + h) + m) + r;
    ConcatAssoc(prompt, h, m);
    ConcatAssoc(prompt, h + m, r);
  }

  /** Removes `sentence` from the front of `t` when it is there. */
  function StripSentence(t: string, sentence: string): (bool, string) {
    if sentence <= t then (true, t[|sentence|..]) else (false, t)
  }

  /** Reads conditional sentences back: which of the sentences `h`, `m`
      and `r` are present, in that order, with nothing else around them. */
  function ReadSentences(h: string, m: string, r: string, t: string): Option<(bool, bool, bool)> {
    var (a, t1) := StripSentence(t, h);
    var (b, t2) := StripSentence(t1, m);
    var (c, t3) := StripSentence(t2, r);
    if t3 == "" then Some((a, b, c)) else None
  }

  /** Reads the conditional sentences of a report or a ticket back. */
  function ReadConditions(healthcare: string, t: string): Option<(bool, bool, bool)> {
    ReadSentences(healthcare, MentalHealth, RestrictiveHousing, t)
  }

  lemma NotPrefixAt(a: string, b: string, k: nat)
    requires k < |a| && k < |b| && a[k] != b[k]
    ensures !(a <= b)
  {
  }

  /** Three sentences that part ways at fixed positions are read back from
      any selection of them written in order. */
  lemma {:induction false} ReadSentencesBack(h: string, m: string, r: string, a: bool, b: bool, c: bool)
    requires |h| > 29 && |m| > 29 && |r| > 29
    requires h[20] == 't' && h[29] == 't' && m[20] == 'e' && r[20] == 't' && r[29] == 'N'
    ensures ReadSentences(h, m, r, (if a then h else "") + (if b then m else "") + (if c then r else "")) ==
      Some((a, b, c))
  {
    var mm := if b then m else "";
    var rr := if c then r else "";
    var t := (if a then h else "") + mm + rr;
    if a {
      assert t == h + (mm + rr);
      assert t[|h|..] == mm + rr;
    } else {
      assert t == mm + rr;
      if b {
        NotPrefixAt(h, mm + rr, 20);
      } else if c {
        NotPrefixAt(h, rr, 29);
      }
    }
    if b {
      assert (mm + rr)[|m|..] == rr;
    } else if c {
      NotPrefixAt(m, rr, 20);
    }
    if c {
      assert rr[|r|..] == "";
    }
  }

  /** The conditional sentences say exactly which flags were "yes": each
      sentence is there if and only if its flag is exactly "yes", in the
      order healthcare, mental health, restrictive housing. */
  lemma ConditionsRoundTrip(healthcare: string, s: Submission)
    requires healthcare == ReportHealthcare || healthcare == TicketHealthcare
    ensures ReadConditions(healthcare, Conditions(healthcare, s)) ==
      Some((IsYes(s.healthcare), IsYes(s.mentalHealth), IsYes(s.restrictiveHousing)))
  {
    SentencesDiffer();
    ReadSentencesBack(healthcare, MentalHealth, RestrictiveHousing,
      IsYes(s.healthcare), IsYes(s.mentalHealth), IsYes(s.restrictiveHousing));
  }

  /** Where the conditional sentences part ways: after "The individual
      was " and after "taken to ". */
  lemma SentencesDiffer()
    ensures |ReportHealthcare| > 29 && ReportHealthcare[20] == 't' && ReportHealthcare[29] == 't'
    ensures |TicketHealthcare| > 29 && TicketHealthcare[20] == 't' && TicketHealthcare[29] == 't'
    ensures |MentalHealth| > 29 && MentalHealth[20] == 'e'
    ensures |RestrictiveHousing| > 29 && RestrictiveHousing[20] == 't' && RestrictiveHousing[29] == 'N'
  {
    assert |Subject| == 20 && |TakenTo| == 29 && TakenTo[20] == 't';
    CharAfter(TakenTo, "the ");
    CharAfter(TakenTo, "N2 ");
    CharAfter(Subject, "evaluated ");
  }

  lemma CharAfter(a: string, b: string)
    requires |b| > 0
    ensures (a + b)[|a|] == b[0]
  {
  }

  // ---------------------------------------------------------------------
  // The report prompt
  // ---------------------------------------------------------------------

  /** `basePrompt` once it is complete: the opening, one line per
      individual, the conditional sentences and the closing sentence. */
  function ReportPrompt(date: string, s: Submission): string {
    var inmates := InmatesOf(s);
    Opening(date, s, "incident") + InmateLines(inmates, 0) +
    Conditions(ReportHealthcare, s) + Closing(Entries(inmates))
  }

  /** The report prompt starts with the opening block and ends with the
      closing sentence naming every individual. */
  lemma ReportPromptFrame(date: string, s: Submission)
    ensures Opening(date, s, "incident") <= ReportPrompt(date, s)
    ensures var z := Closing(Entries(InmatesOf(s))); var p := ReportPrompt(date, s);
      |z| <= |p| && p[|p| - |z|..] == z
  {
    var inmates := InmatesOf(s);
    var a := Opening(date, s, "incident");
    var body := a + InmateLines(inmates, 0) + Conditions(ReportHealthcare, s);
    PrefixExtends(a, a + InmateLines(inmates, 0), Conditions(ReportHealthcare, s));
    Framed(a, body, Closing(Entries(inmates)));
  }

  /** A prefix of `p` is a prefix of `p` extended. */
  lemma PrefixExtends(a: string, p: string, z: string)
    requires a <= p
    ensures a <= p + z
  {
  }

  /** `a` starts and `z` ends `body + z` when `a` starts `body`. */
  lemma Framed(a: string, body: string, z: string)
    requires a <= body
    ensures a <= body + z
    ensures |z| <= |body + z| && (body + z)[|body + z| - |z|..] == z
  {
  }

  const ReportBadRequest := "Missing required fields. Please fill out all required inputs."
  const ReportFailure := "Failed to generate report. Check API key, quota, or backend logs."

  /** Builds `basePrompt` with its `+=` steps once validation has passed. */
  method AssembleReportPrompt(s: Submission, date: string) returns (basePrompt: string)
    requires s.inmates.Some?
    ensures basePrompt == ReportPrompt(date, s)
  {
    basePrompt := Opening(date, s, "incident");
    var inmateNamesList;
    basePrompt, inmateNamesList := AppendInmates(basePrompt, s.inmates.value);
    basePrompt := AppendConditions(basePrompt, ReportHealthcare, s);
    basePrompt := basePrompt + Closing(inmateNamesList);
  }

  /** `/generate-report`. Returns the response and the prompt handed to the
      completion service, if it was called. */
  method GenerateReport(s: Submission, date: string, reply: Completion) returns (resp: Response, sent: Option<string>)
    ensures resp.BadRequest? <==> Rejects(s)
    ensures Rejects(s) ==> resp == BadRequest(ReportBadRequest) && sent == None
    ensures !Rejects(s) ==> sent == Some(ReportPrompt(date, s))
    ensures !Rejects(s) ==>
      resp == (if reply.Reply? && |reply.choices| > 0 then Ok("report", reply.choices[0]) else ServerError(ReportFailure))
  {
    if Rejects(s) {
      return BadRequest(ReportBadRequest), None;
    }
    var basePrompt := AssembleReportPrompt(s, date);
    sent := Some(basePrompt);
    if reply.TransportError? || |reply.choices| == 0 {
      resp := ServerError(ReportFailure);
    } else {
      resp := Ok("report", reply.choices[0]);
    }
  }

  // ---------------------------------------------------------------------
  // Offense lines and the ticket
  // ---------------------------------------------------------------------

  /** `filter(line => line.trim() !== "")`: the lines that are not blank, in
      their order. */
  function KeepNonBlank(lines: seq<string>): (r: seq<string>)
    ensures |r| <= |lines|
    ensures forall i :: 0 <= i < |r| ==> !IsBlank(r[i])
  {
    if lines == [] then []
    else if IsBlank(lines[0]) then KeepNonBlank(lines[1..])
    else [lines[0]] + KeepNonBlank(lines[1..])
  }

  /** The kept lines are lines of the input, in their order. */
  lemma {:induction false} KeepNonBlankInOrder(lines: seq<string>)
    ensures IsSubsequence(KeepNonBlank(lines), lines)
  {
    if lines != [] {
      KeepNonBlankInOrder(lines[1..]);
      var rest := KeepNonBlank(lines[1..]);
      if !IsBlank(lines[0]) {
        assert ([lines[0]] + rest)[1..] == rest;
      }
    }
  }

  /** Every kept line is a line of the input. */
  lemma {:induction false} KeepNonBlankSound(lines: seq<string>, i: nat)
    requires i < |KeepNonBlank(lines)|
    ensures KeepNonBlank(lines)[i] in lines
  {
    if IsBlank(lines[0]) {
      KeepNonBlankSound(lines[1..], i);
    } else if i > 0 {
      KeepNonBlankSound(lines[1..], i - 1);
    }
  }

  /** Every line of the input that is not blank is kept. */
  lemma {:induction false} KeepNonBlankComplete(lines: seq<string>, j: nat)
    requires j < |lines| && !IsBlank(lines[j])
    ensures lines[j] in KeepNonBlank(lines)
  {
    if j > 0 {
      KeepNonBlankComplete(lines[1..], j - 1);
    }
  }

  /** Every non-blank line is kept as many times as it occurs. */
  lemma {:induction false} KeepNonBlankCount(lines: seq<string>, x: string)
    requires !IsBlank(x)
    ensures multiset(KeepNonBlank(lines))[x] == multiset(lines)[x]
  {
    if lines != [] {
      KeepNonBlankCount(lines[1..], x);
      assert lines == [lines[0]] + lines[1..];
      assert multiset(lines) == multiset([lines[0]]) + multiset(lines[1..]);
    }
  }

  /** Filtering two lists one after the other filters each. */
  lemma {:induction false} KeepNonBlankAppend(a: seq<string>, b: seq<string>)
    ensures KeepNonBlank(a + b) == KeepNonBlank(a) + KeepNonBlank(b)
  {
    if a != [] {
      assert (a + b)[1..] == a[1..] + b;
      KeepNonBlankAppend(a[1..], b);
    } else {
      assert a + b == b;
    }
  }

  /** Lines that are all non-blank pass the filter unchanged. */
  lemma {:induction false} KeepNonBlankKeepsAll(lines: seq<string>)
    requires forall i :: 0 <= i < |lines| ==> !IsBlank(lines[i])
    ensures KeepNonBlank(lines) == lines
  {
    if lines != [] {
      KeepNonBlankKeepsAll(lines[1..]);
    }
  }

  /** `content.split("\n").filter(line => line.trim() !== "")`. */
  function ExtractOffenses(content: string): seq<string> {
    KeepNonBlank(Split(content, '\n'))
  }

  /** No extracted line holds a line break or is blank. */
  lemma ExtractedLinesClean(content: string)
    ensures forall i :: 0 <= i < |ExtractOffenses(content)| ==>
      '\n' !in ExtractOffenses(content)[i] && !IsBlank(ExtractOffenses(content)[i])
  {
    var lines := Split(content, '\n');
    forall i | 0 <= i < |KeepNonBlank(lines)| ensures '\n' !in KeepNonBlank(lines)[i] {
      KeepNonBlankSound(lines, i);
    }
  }

  /** The extracted lines are the non-blank lines of the content, every one
      of them as often as it occurs, in their order. */
  lemma ExtractOffensesLines(content: string)
    ensures IsSubsequence(ExtractOffenses(content), Split(content, '\n'))
    ensures forall j :: 0 <= j < |Split(content, '\n')| && !IsBlank(Split(content, '\n')[j]) ==>
      Split(content, '\n')[j] in ExtractOffenses(content)
    ensures forall x :: !IsBlank(x) ==>
      multiset(ExtractOffenses(content))[x] == multiset(Split(content, '\n'))[x]
  {
    var lines := Split(content, '\n');
    KeepNonBlankInOrder(lines);
    forall j | 0 <= j < |lines| && !IsBlank(lines[j]) ensures lines[j] in ExtractOffenses(content) {
      KeepNonBlankComplete(lines, j);
    }
    forall x | !IsBlank(x) ensures multiset(KeepNonBlank(lines))[x] == multiset(lines)[x] {
      KeepNonBlankCount(lines, x);
    }
  }

  /** A string with a first character is whitespace only exactly when that
      character and the rest are. */
  lemma WhitespaceCons(c: char, rest: string)
    ensures AllWhitespace([c] + rest) <==> IsJsWhitespace(c) && AllWhitespace(rest)
  {
    var s := [c] + rest;
    assert s[0] == c;
    assert forall i :: 0 <= i < |rest| ==> rest[i] == s[i + 1];
    if IsJsWhitespace(c) && AllWhitespace(rest) {
      assert forall i :: 1 <= i < |s| ==> s[i] == rest[i - 1];
    }
  }

  /** All the lines of `content` are blank exactly when `content` is
      whitespace only (a line break is whitespace itself). */
  lemma {:induction false} AllLinesBlankIff(content: string)
    ensures (forall j :: 0 <= j < |Split(content, '\n')| ==> IsBlank(Split(content, '\n')[j])) <==>
      AllWhitespace(content)
  {
    if content != [] {
      var rest := content[1..];
      AllLinesBlankIff(rest);
      var t := Split(rest, '\n');
      assert content == [content[0]] + rest;
      WhitespaceCons(content[0], rest);
      var r := Split(content, '\n');
      if content[0] != '\n' {
        WhitespaceCons(content[0], t[0]);
        AllBlankCons([content[0]] + t[0], t[1..]);
        assert r == [[content[0]] + t[0]] + t[1..];
        AllBlankCons(t[0], t[1..]);
        assert t == [t[0]] + t[1..];
      } else {
        assert r == [""] + t;
        AllBlankCons("", t);
      }
    }
  }

  lemma AllBlankCons(x: string, xs: seq<string>)
    ensures (forall j :: 0 <= j < |[x] + xs| ==> IsBlank(([x] + xs)[j])) <==>
      IsBlank(x) && (forall j :: 0 <= j < |xs| ==> IsBlank(xs[j]))
  {
    var s := [x] + xs;
    assert s[0] == x;
    assert forall j :: 0 <= j < |xs| ==> xs[j] == s[j + 1];
    assert forall j :: 1 <= j < |s| ==> s[j] == xs[j - 1];
  }

  /** No offense line is extracted exactly when the completion text is
      whitespace only. */
  lemma NoOffensesIff(content: string)
    ensures ExtractOffenses(content) == [] <==> AllWhitespace(content)
  {
    NothingKeptIffWhitespace(content);
  }

  lemma NothingKeptIffWhitespace(content: string)
    ensures KeepNonBlank(Split(content, '\n')) == [] <==> AllWhitespace(content)
  {
    AllLinesBlankIff(content);
    NothingKeptIff(Split(content, '\n'));
  }

  /** The filter keeps nothing exactly when every line is blank. */
  lemma {:induction false} NothingKeptIff(lines: seq<string>)
    ensures KeepNonBlank(lines) == [] <==> forall j :: 0 <= j < |lines| ==> IsBlank(lines[j])
  {
    if lines != [] {
      NothingKeptIff(lines[1..]);
      assert forall j :: 1 <= j < |lines| ==> lines[j] == lines[1..][j - 1];
    }
  }

  /** A blank line put between two lines of the completion text changes
      nothing that is extracted. */
  lemma BlankLineIgnored(content: string, i: nat, blank: string)
    requires i <= |Split(content, '\n')|
    requires IsBlank(blank) && '\n' !in blank
    ensures ExtractOffenses(Join(Split(content, '\n')[..i] + [blank] + Split(content, '\n')[i..], "\n")) ==
      ExtractOffenses(content)
  {
    var lines := Split(content, '\n');
    var padded := lines[..i] + [blank] + lines[i..];
    assert forall j :: 0 <= j < |padded| ==> '\n' !in padded[j] by {
      forall j | 0 <= j < |padded| ensures '\n' !in padded[j] {
        if j < i { assert padded[j] == lines[j]; }
        else if j > i { assert padded[j] == lines[j - 1]; }
      }
    }
    SplitJoin(padded, '\n');
    BlankEntryDropped(lines, i, blank);
  }

  /** A blank entry anywhere in a list of lines is dropped by the filter. */
  lemma {:induction false} BlankEntryDropped(lines: seq<string>, i: nat, blank: string)
    requires i <= |lines| && IsBlank(blank)
    ensures KeepNonBlank(lines[..i] + [blank] + lines[i..]) == KeepNonBlank(lines)
  {
    DropBlankBetween(lines[..i], lines[i..], blank);
    assert lines[..i] + lines[i..] == lines;
  }

  lemma {:induction false} DropBlankBetween(a: seq<string>, b: seq<string>, blank: string)
    requires IsBlank(blank)
    ensures KeepNonBlank(a + [blank] + b) == KeepNonBlank(a + b)
  {
    KeepNonBlankAppend(a + [blank], b);
    KeepNonBlankAppend(a, [blank]);
    BlankDropped(blank);
    KeepNonBlankAppend(a, b);
  }

  lemma BlankDropped(blank: string)
    requires IsBlank(blank)
    ensures KeepNonBlank([blank]) == []
  {
    assert [blank][1..] == [];
  }

  /** Extraction is idempotent: joining the extracted lines with line breaks
      and extracting again gives the same lines. */
  lemma ExtractIdempotent(content: string)
    ensures ExtractOffenses(Join(ExtractOffenses(content), "\n")) == ExtractOffenses(content)
  {
    ExtractedLinesClean(content);
    RefilterJoined(ExtractOffenses(content));
  }

  /** Clean lines joined with line breaks are filtered back to themselves. */
  lemma RefilterJoined(offs: seq<string>)
    requires forall i :: 0 <= i < |offs| ==> '\n' !in offs[i] && !IsBlank(offs[i])
    ensures KeepNonBlank(Split(Join(offs, "\n"), '\n')) == offs
  {
    if offs == [] {
      assert Split("", '\n') == [""];
      assert IsBlank("");
    } else {
      SplitJoin(offs, '\n');
      KeepNonBlankKeepsAll(offs);
    }
  }

  /** The line "offenses were identified" that always precedes the block. */
  const OffensesIdentified := "\n\nThe following offenses were identified based on the described incident:"

  const OffenseCodesHeader := "\n\nOffense Codes:\n"

  /** The "Offense Codes" block: present only when some line was
      extracted. */
  function OffenseBlock(offenses: seq<string>): string {
    if |offenses| > 0 then OffenseCodesHeader + Join(offenses, "\n") else ""
  }

  /** The lines of the "Offense Codes" block can be read back from it: they
      are exactly the extracted lines. */
  lemma OffenseBlockReadBack(content: string)
    requires ExtractOffenses(content) != []
    ensures OffenseBlock(ExtractOffenses(content)) ==
      OffenseCodesHeader + Join(ExtractOffenses(content), "\n")
    ensures Split(Join(ExtractOffenses(content), "\n"), '\n') == ExtractOffenses(content)
  {
    ExtractedLinesClean(content);
    SplitJoin(ExtractOffenses(content), '\n');
  }

  /** The ticket once assembled from the submission and the extracted offense
      lines. */
  function TicketText(date: string, s: Submission, offenses: seq<string>): string {
    var inmates := InmatesOf(s);
    Opening(date, s, "violation") + InmateLines(inmates, 0) + OffensesIdentified +
    OffenseBlock(offenses) + Conditions(TicketHealthcare, s) + Closing(Entries(inmates))
  }

  /** The ticket starts with the opening block and ends with the closing
      sentence naming every individual. */
  lemma TicketFrame(date: string, s: Submission, offenses: seq<string>)
    ensures Opening(date, s, "violation") <= TicketText(date, s, offenses)
    ensures var z := Closing(Entries(InmatesOf(s))); var t := TicketText(date, s, offenses);
      |z| <= |t| && t[|t| - |z|..] == z
  {
    var inmates := InmatesOf(s);
    var a := Opening(date, s, "violation");
    var p1 := a + InmateLines(inmates, 0);
    var p2 := p1 + OffensesIdentified;
    var p3 := p2 + OffenseBlock(offenses);
    PrefixExtends(a, p1, OffensesIdentified);
    PrefixExtends(a, p2, OffenseBlock(offenses));
    PrefixExtends(a, p3, Conditions(TicketHealthcare, s));
    Framed(a, p3 + Conditions(TicketHealthcare, s), Closing(Entries(inmates)));
  }

  /** The ticket holds the "Offense Codes" block exactly when the
      completion text has a character that is not whitespace; the block sits
      between the "offenses were identified" line and the conditional
      sentences. */
  lemma TicketOffenseBlock(date: string, s: Submission, content: string)
    ensures var inmates := InmatesOf(s);
      var offenses := ExtractOffenses(content);
      TicketText(date, s, offenses) ==
        Opening(date, s, "violation") + InmateLines(inmates, 0) + OffensesIdentified +
        (if AllWhitespace(content) then "" else OffenseCodesHeader + Join(offenses, "\n")) +
        Conditions(TicketHealthcare, s) + Closing(Entries(inmates))
  {
    NoOffensesIff(content);
  }

  /** The ticket records the extracted offense lines exactly: two completion
      texts that give the same ticket have the same non-blank lines. */
  lemma TicketRecordsOffenseLines(date: string, s: Submission, c1: string, c2: string)
    requires TicketText(date, s, ExtractOffenses(c1)) == TicketText(date, s, ExtractOffenses(c2))
    ensures ExtractOffenses(c1) == ExtractOffenses(c2)
  {
    var inmates := InmatesOf(s);
    var p := Opening(date, s, "violation") + InmateLines(inmates, 0) + OffensesIdentified;
    var z := Conditions(TicketHealthcare, s) + Closing(Entries(inmates));
    var o1, o2 := ExtractOffenses(c1), ExtractOffenses(c2);
    ConcatAssoc(p + OffenseBlock(o1), Conditions(TicketHealthcare, s), Closing(Entries(inmates)));
    ConcatAssoc(p + OffenseBlock(o2), Conditions(TicketHealthcare, s), Closing(Entries(inmates)));
    CutMiddle(p, OffenseBlock(o1), OffenseBlock(o2), z);
    if o1 != [] && o2 != [] {
      OffenseBlockReadBack(c1);
      OffenseBlockReadBack(c2);
      CutMiddle(OffenseCodesHeader, Join(o1, "\n"), Join(o2, "\n"), "");
    }
  }

  /** A text framed by the same prefix and suffix determines its middle. */
  lemma CutMiddle(p: string, b1: string, b2: string, z: string)
    requires p + b1 + z == p + b2 + z
    ensures b1 == b2
  {
    assert b1 == (p + b1 + z)[|p|..|p + b1 + z| - |z|];
    assert b2 == (p + b2 + z)[|p|..|p + b2 + z| - |z|];
  }

  const TicketBadRequest := "Missing required fields for ticket generation."
  const TicketFailure := "Failed to generate ticket. Check API key, quota, or backend logs."

  /** Runs the `forEach` that pushes the extracted lines onto
      `offensesList`. */
  method CollectOffenses(aiGeneratedOffenses: seq<string>) returns (offensesList: seq<string>)
    ensures offensesList == aiGeneratedOffenses
  {
    offensesList := [];
    var k := 0;
    while k < |aiGeneratedOffenses|
      invariant 0 <= k <= |aiGeneratedOffenses|
      invariant offensesList == aiGeneratedOffenses[..k]
    {
      offensesList := offensesList + [aiGeneratedOffenses[k]];
      k := k + 1;
    }
    assert aiGeneratedOffenses[..k] == aiGeneratedOffenses;
  }

  /** The part of the ticket built before the completion call: the opening,
      the individual lines and the "offenses were identified" line, and the
      entries for the closing sentence. */
  method StartTicket(s: Submission, date: string) returns (ticketPrompt: string, inmateNamesList: seq<string>)
    requires s.inmates.Some?
    ensures ticketPrompt == Opening(date, s, "violation") + InmateLines(InmatesOf(s), 0) + OffensesIdentified
    ensures inmateNamesList == Entries(InmatesOf(s))
  {
    ticketPrompt := Opening(date, s, "violation");
    ticketPrompt, inmateNamesList := AppendInmates(ticketPrompt, s.inmates.value);
    ticketPrompt := ticketPrompt + OffensesIdentified;
  }

  /** The part built from the completion text: the extracted lines, the
      "Offense Codes" block when there are any, the conditional sentences and
      the closing sentence. */
  method FinishTicket(ticketPrompt: string, inmateNamesList: seq<string>, content: string, s: Submission)
    returns (t: string)
    ensures t == ticketPrompt + OffenseBlock(ExtractOffenses(content)) +
      Conditions(TicketHealthcare, s) + Closing(inmateNamesList)
  {
    var aiGeneratedOffenses := ExtractOffenses(content);
    var offensesList := CollectOffenses(aiGeneratedOffenses);
    t := ticketPrompt;
    if |offensesList| > 0 {
      t := t + (OffenseCodesHeader + Join(offensesList, "\n"));
    } else {
      assert t == ticketPrompt + "";
    }
    assert t == ticketPrompt + OffenseBlock(aiGeneratedOffenses);
    t := AppendConditions(t, TicketHealthcare, s);
    t := t + Closing(inmateNamesList);
  }

  /** `/generate-ticket`. Returns the response and whether the completion
      service was called. */
  method GenerateTicket(s: Submission, date: string, reply: Completion) returns (resp: Response, called: bool)
    ensures resp.BadRequest? <==> Rejects(s)
    ensures Rejects(s) ==> resp == BadRequest(TicketBadRequest) && !called
    ensures !Rejects(s) ==> called
    ensures !Rejects(s) ==>
      resp == (if reply.Reply? && |reply.choices| > 0
               then Ok("ticket", TicketText(date, s, ExtractOffenses(reply.choices[0])))
               else ServerError(TicketFailure))
  {
    if Rejects(s) {
      return BadRequest(TicketBadRequest), false;
    }
    var ticketPrompt, inmateNamesList := StartTicket(s, date);
    called := true;
    if reply.TransportError? || |reply.choices| == 0 {
      return ServerError(TicketFailure), called;
    }
    ticketPrompt := FinishTicket(ticketPrompt, inmateNamesList, reply.choices[0], s);
    resp := Ok("ticket", ticketPrompt);
  }
}
