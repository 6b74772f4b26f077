/** The table of disciplinary offenses in server.js (`offenseCodes`). Every
    entry maps an offense title to the text "code - title", where the code is
    three decimal digits. */
module OffenseCatalog {
  import opened Wrappers

  /** One entry: the title (the object key) and the code that starts its
      value. The value the table stores is `Value(o)`. */
  datatype Offense = Offense(title: string, code: string)

  /** The entries in declaration order, which is also the order
      `Object.values(offenseCodes)` lists them in (no title looks like an
      array index). */
  const Rows: seq<Offense> := [
    Offense("Possession of Money", "312"),
    Offense("Disobeying a Direct Order", "313"),
    Offense("Health, Smoking, or Safety Violations", "402"),
    Offense("Violation of Rules", "404"),
    Offense("Failure to Report", "405"),
    Offense("Trading or Trafficking", "406"),
    Offense("Violating State or Federal Laws", "501"),
    Offense("Aiding and Abetting, Attempt, Solicitation, or Conspiracy", "601"),
    Offense("Drugs and Drug Paraphernalia", "203"),
    Offense("Forgery", "204"),
    Offense("Security Threat Group or Unauthorized Organizational Activity", "205"),
    Offense("Intimidation or Threats", "206"),
    Offense("Dangerous Communications", "208"),
    Offense("Dangerous Written Material", "209"),
    Offense("Impairment of Surveillance", "210"),
    Offense("Possession or Solicitation of Unauthorized Personal Information", "211"),
    Offense("Frivolous Lawsuit", "212"),
    Offense("Failure to Reveal Assets", "213"),
    Offense("Fighting", "214"),
    Offense("Disobeying a Direct Order Essential to Safety and Security", "215"),
    Offense("Gambling", "302"),
    Offense("Giving False Information to an Employee", "303"),
    Offense("Theft", "305"),
    Offense("Insolence", "304"),
    Offense("Transfer of Funds", "306"),
    Offense("Unauthorized Movement", "307"),
    Offense("Contraband or Unauthorized Property", "308"),
    Offense("Petitions, Postings, and Business Ventures", "309"),
    Offense("Abuse of Privileges", "310"),
    Offense("Failure to Submit to Medical or Forensic Tests", "311")
  ]

  /** The text the table stores under an entry's title: "code - title". */
  function Value(o: Offense): string {
    o.code + " - " + o.title
  }

  /** `Object.values(offenseCodes)`: the stored texts in table order. */
  function Values(): (vs: seq<string>)
    ensures |vs| == |Rows|
    ensures forall i :: 0 <= i < |Rows| ==> vs[i] == Value(Rows[i])
  {
    seq(|Rows|, i requires 0 <= i < |Rows| => Value(Rows[i]))
  }

  predicate IsDigit(c: char) {
    '0' <= c <= '9'
  }

  /** Three decimal digits. */
  predicate IsCode(c: string) {
    |c| == 3 && IsDigit(c[0]) && IsDigit(c[1]) && IsDigit(c[2])
  }

  /** Reads a stored text back as code and title: the first three characters,
      then " - ", then the title. */
  function ParseValue(v: string): (r: Option<Offense>)
    ensures r.Some? ==> IsCode(r.value.code) && Value(r.value) == v
  {
    if |v| >= 6 && IsCode(v[..3]) && v[3..6] == " - " then
      assert v == v[..3] + " - " + v[6..];
      Some(Offense(v[6..], v[..3]))
    else
      None
  }

  /** A text of the shape "code - title" reads back as that code and title. */
  lemma ParseValueRoundTrip(o: Offense)
    requires IsCode(o.code)
    ensures ParseValue(Value(o)) == Some(o)
  {
    var v := Value(o);
    assert v[..3] == o.code && v[3..6] == " - " && v[6..] == o.title;
  }

  /** The number three digits denote. */
  function CodeNumber(c: string): (n: int)
    requires IsCode(c)
    ensures 0 <= n < 1000
  {
    100 * (c[0] as int - '0' as int) + 10 * (c[1] as int - '0' as int) + (c[2] as int - '0' as int)
  }

  /** The position of the entry whose code denotes `n`, or -1. */
  function RowOfCodeNumber(n: int): int {
    if n == 312 then 0
    else if n == 313 then 1
    else if n == 402 then 2
    else if n == 404 then 3
    else if n == 405 then 4
    else if n == 406 then 5
    else if n == 501 then 6
    else if n == 601 then 7
    else if n == 203 then 8
    else if n == 204 then 9
    else if n == 205 then 10
    else if n == 206 then 11
    else if n == 208 then 12
    else if n == 209 then 13
    else if n == 210 then 14
    else if n == 211 then 15
    else if n == 212 then 16
    else if n == 213 then 17
    else if n == 214 then 18
    else if n == 215 then 19
    else if n == 302 then 20
    else if n == 303 then 21
    else if n == 305 then 22
    else if n == 304 then 23
    else if n == 306 then 24
    else if n == 307 then 25
    else if n == 308 then 26
    else if n == 309 then 27
    else if n == 310 then 28
    else if n == 311 then 29
    else -1
  }

  /** Every entry's code is three digits, and its number leads back to the
      entry's position. */
  lemma CodesLeadBack()
    ensures forall i :: 0 <= i < |Rows| ==> IsCode(Rows[i].code) && RowOfCodeNumber(CodeNumber(Rows[i].code)) == i
  {
  }

  /** No two entries share a code. */
  lemma CodesDistinct()
    ensures forall i, j :: 0 <= i < j < |Rows| ==> Rows[i].code != Rows[j].code
  {
    CodesLeadBack();
  }

  /** No two entries share a title, so the object literal has no duplicate
      key and one entry per row. */
  lemma TitlesDistinct()
    ensures forall i, j :: 0 <= i < j < |Rows| ==> Rows[i].title != Rows[j].title
  {
  }

  /** The table has 30 entries; every stored text is a three-digit code,
      " - " and the entry's own title; no two entries share a code or a
      title. */
  lemma CatalogWellFormed()
    ensures |Rows| == 30
    ensures forall i :: 0 <= i < |Rows| ==> ParseValue(Values()[i]) == Some(Rows[i])
    ensures forall i, j :: 0 <= i < j < |Rows| ==> Rows[i].code != Rows[j].code
    ensures forall i, j :: 0 <= i < j < |Rows| ==> Rows[i].title != Rows[j].title
  {
    CodesLeadBack();
    forall i | 0 <= i < |Rows| ensures ParseValue(Values()[i]) == Some(Rows[i]) {
      ParseValueRoundTrip(Rows[i]);
    }
    CodesDistinct();
    TitlesDistinct();
  }
}
