/**
 * The error entries of a bulk import: a failing CSV line becomes
 * "Erro na linha <n>: <paths>", and both the line number and the failing
 * fields can be read back.
 */
module ImportReport {
  import opened ProductSchema
  import Text

  const LinePrefix: string := "Erro na linha "

  /** `issues.map(e => e.path)`: each path is the one key it names. */
  function Paths(issues: seq<Issue>): (ps: seq<string>)
    ensures |ps| == |issues| && forall i :: 0 <= i < |issues| ==> ps[i] == Key(issues[i].path)
  {
    if issues == [] then [] else Paths(issues[..|issues| - 1]) + [Key(issues[|issues| - 1].path)]
  }

  /** No field key contains the separator's comma. */
  lemma PathsWithoutComma(issues: seq<Issue>)
    ensures forall i :: 0 <= i < |Paths(issues)| ==> ',' !in Paths(issues)[i]
  {
  }

  /** The keys joined with ", " split back into the keys. */
  lemma JoinedPathsSplit(issues: seq<Issue>)
    ensures issues != [] ==> Text.SplitSep(Text.Join(Paths(issues), ", ")) == Paths(issues)
  {
    if issues != [] {
      PathsWithoutComma(issues);
      Text.SplitJoin(Paths(issues));
    }
  }

  /**
   * The error entry for a failing CSV line: the prefix, the line number, and
   * then, for a row with issues, exactly the failing fields' keys in order.
   */
  function RowError(line: nat, issues: seq<Issue>): (e: string)
    ensures LinePrefix <= e
    ensures Text.LeadingDigits(e[|LinePrefix|..]) == Text.NatToString(line)
    ensures issues != [] ==> ReportedFields(e) == Paths(issues)
  {
    var digits := Text.NatToString(line);
    var fields := Text.Join(Paths(issues), ", ");
    var rest := ": " + fields;
    Text.SplitAfterPrefix(LinePrefix, digits + rest);
    Text.LeadingDigitsStop(digits, rest);
    Text.SplitAfterPrefix(digits, rest);
    assert rest[2..] == fields;
    JoinedPathsSplit(issues);
    LinePrefix + (digits + rest)
  }

  /** The fields an error entry names: the text after "<digits>: ", split on ", ". */
  function ReportedFields(entry: string): seq<string>
  {
    if LinePrefix <= entry then
      var rest := entry[|LinePrefix|..];
      var after := rest[|Text.LeadingDigits(rest)|..];
      if ": " <= after then Text.SplitSep(after[2..]) else []
    else []
  }

  /** The line number an error entry reports: the digits after the prefix. */
  function ReportedLine(entry: string): nat
  {
    if LinePrefix <= entry then Text.ParseDecimal(Text.LeadingDigits(entry[|LinePrefix|..])) else 0
  }

  /** The line number can be read back from an error entry. */
  lemma ReportedLineRoundTrip(line: nat, issues: seq<Issue>)
    ensures ReportedLine(RowError(line, issues)) == line
  {
    Text.ParseNatToString(line);
  }
}
