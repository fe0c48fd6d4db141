/**
 * Persona utilities: composing a description from a CSV row and turning the
 * rows of the persona file into the roster. Reading the file is not modelled;
 * a row is the dict `csv.DictReader` yields.
 */
module Personas {
  import opened Wrappers
  import opened Text

  type Row = map<string, string>

  /** A roster entry: name, description and the optional styling columns. */
  datatype Persona = Persona(name: string, description: string, color: Option<string>, emoji: Option<string>)

  /** `row.get(key, "").strip()`. */
  function Cell(row: Row, key: string): string {
    Strip(if key in row then row[key] else "")
  }

  /** The stripped cells `_build_description` reads. */
  datatype Cells = Cells(age: string, role: string, context: string, goals: string,
                         painPoints: string, techSavvy: string, description: string)

  function RowCells(row: Row): Cells {
    Cells(Cell(row, "age"), Cell(row, "role"), Cell(row, "context"), Cell(row, "goals"),
          Cell(row, "pain_points"), Cell(row, "tech_savvy"), Cell(row, "description"))
  }

  /** The description parts, in their fixed order, each present only when its cell is non-blank. */
  function DescriptionParts(c: Cells): seq<string> {
    (if c.age != "" && c.role != "" then [c.age + "-year\U{2011}old " + c.role]
     else if c.role != "" then [c.role] else [])
    + (if c.context != "" then [c.context] else [])
    + (if c.goals != "" then ["Goals: " + c.goals] else [])
    + (if c.painPoints != "" then ["Pain points: " + c.painPoints] else [])
    + (if c.techSavvy != "" then ["Tech\U{2011}savvy: " + c.techSavvy] else [])
    + (if c.description != "" then [c.description] else [])
  }

  /** `_build_description`: the parts joined with "; ". */
  function BuildDescription(row: Row): string {
    Describe(RowCells(row))
  }

  /** Every cell except the age can contribute a part on its own. */
  predicate AllBlank(c: Cells) {
    c.role == "" && c.context == "" && c.goals == "" && c.painPoints == "" && c.techSavvy == "" && c.description == ""
  }

  /** The parts joined with "; "; the description is empty exactly when every contributing cell is blank. */
  function Describe(c: Cells): (d: string)
    ensures d == "" <==> AllBlank(c)
  {
    var parts := DescriptionParts(c);
    assert forall i :: 0 <= i < |parts| ==> parts[i] != [];
    JoinEmptyIff("; ", parts);
    Join("; ", parts)
  }

  /** Without a role the age has no effect on the description. */
  lemma AgeNeedsRole(c: Cells, age: string)
    requires c.role == ""
    ensures Describe(c.(age := age)) == Describe(c)
  {
    assert DescriptionParts(c.(age := age)) == DescriptionParts(c);
  }

  /** With a role, the age comes first, joined to the role, and opens the description. */
  lemma AgeLeadsWithRole(c: Cells)
    requires c.age != "" && c.role != ""
    ensures var lead := c.age + "-year\U{2011}old " + c.role;
            |lead| <= |Describe(c)| && Describe(c)[..|lead|] == lead
  {
    JoinStartsWithFirst("; ", DescriptionParts(c));
  }

  /** The parts keep their fixed order: the explicit description, when present, closes the text. */
  lemma ExplicitDescriptionLast(c: Cells)
    requires c.description != ""
    ensures |c.description| <= |Describe(c)|
    ensures Describe(c)[|Describe(c)| - |c.description|..] == c.description
  {
    var parts := DescriptionParts(c);
    assert parts[|parts| - 1] == c.description;
  }

  /** The persona a row yields, if its name cell is not blank. */
  function RowPersona(row: Row): (p: Option<Persona>)
    ensures p.Some? ==> p.value.name != "" && p.value.name == Cell(row, "name") && Strip(p.value.name) == p.value.name
    ensures p.None? <==> Cell(row, "name") == ""
  {
    var name := Cell(row, "name");
    StripIdempotent(if "name" in row then row["name"] else "");
    if name == "" then None
    else Some(Persona(name, BuildDescription(row), StyleColumn(row, "color"), StyleColumn(row, "emoji")))
  }

  /** An optional styling column: kept, stripped, only when its raw value is non-empty. */
  function StyleColumn(row: Row, key: string): Option<string> {
    if key in row && row[key] != "" then Some(Strip(row[key])) else None
  }

  /** The values of the `Some` entries, in order. */
  function Somes<T>(xs: seq<Option<T>>): (r: seq<T>)
    ensures |r| <= |xs|
    ensures forall y :: y in r ==> Some(y) in xs
  {
    if xs == [] then []
    else Somes(xs[..|xs| - 1]) + (if xs[|xs| - 1].Some? then [xs[|xs| - 1].value] else [])
  }

  /** `Somes` keeps order across a concatenation. */
  lemma {:induction false} SomesAppend<T>(a: seq<Option<T>>, b: seq<Option<T>>)
    ensures Somes(a + b) == Somes(a) + Somes(b)
    decreases |b|
  {
    if b == [] {
      assert a + b == a;
    } else {
      var b' := b[..|b| - 1];
      assert (a + b)[..|a + b| - 1] == a + b';
      SomesAppend(a, b');
    }
  }

  /** `Somes` keeps exactly one value per `Some` entry. */
  lemma SomesCount<T>(xs: seq<Option<T>>)
    ensures |Somes(xs)| == |set i | 0 <= i < |xs| && xs[i].Some?|
  {
    SomesPrefixCount(xs, |xs|);
    assert xs[..|xs|] == xs;
  }

  /** The positions below `n` holding a value. */
  function SomeIndices<T>(xs: seq<Option<T>>, n: nat): set<int>
    requires n <= |xs|
  {
    set i | 0 <= i < n && xs[i].Some?
  }

  lemma {:induction false} SomesPrefixCount<T>(xs: seq<Option<T>>, n: nat)
    requires n <= |xs|
    ensures |Somes(xs[..n])| == |SomeIndices(xs, n)|
    decreases n
  {
    if n > 0 {
      SomesPrefixCount(xs, n - 1);
      assert xs[..n][..n - 1] == xs[..n - 1];
      SomeIndicesStep(xs, n - 1);
    }
  }

  lemma SomeIndicesStep<T>(xs: seq<Option<T>>, k: nat)
    requires k < |xs|
    ensures k !in SomeIndices(xs, k)
    ensures SomeIndices(xs, k + 1) == SomeIndices(xs, k) + (if xs[k].Some? then {k} else {})
  {
  }

  /** What each row yields, row by row. */
  function RowResults(rows: seq<Row>): seq<Option<Persona>> {
    seq(|rows|, i requires 0 <= i < |rows| => RowPersona(rows[i]))
  }

  lemma RowResultsAppend(a: seq<Row>, b: seq<Row>)
    ensures RowResults(a + b) == RowResults(a) + RowResults(b)
  {
    forall i | 0 <= i < |a + b| ensures RowResults(a + b)[i] == (RowResults(a) + RowResults(b))[i] {
      if i < |a| { assert (a + b)[i] == a[i]; } else { assert (a + b)[i] == b[i - |a|]; }
    }
  }

  /** The roster the rows yield: nameless rows skipped, order kept. */
  function RowsToPersonas(rows: seq<Row>): seq<Persona> {
    Somes(RowResults(rows))
  }

  /** Loading two batches of rows is loading each in turn: the roster keeps file order. */
  lemma RowsToPersonasAppend(a: seq<Row>, b: seq<Row>)
    ensures RowsToPersonas(a + b) == RowsToPersonas(a) + RowsToPersonas(b)
  {
    RowResultsAppend(a, b);
    SomesAppend(RowResults(a), RowResults(b));
  }

  /** One persona per row with a non-blank name. */
  lemma RowsToPersonasCount(rows: seq<Row>)
    ensures |RowsToPersonas(rows)| == |set i | 0 <= i < |rows| && Cell(rows[i], "name") != ""|
  {
    var xs := RowResults(rows);
    SomesCount(xs);
    var named := set i | 0 <= i < |rows| && Cell(rows[i], "name") != "";
    var kept := set i | 0 <= i < |xs| && xs[i].Some?;
    forall i | i in kept ensures i in named {
      assert xs[i] == RowPersona(rows[i]);
    }
    forall i | i in named ensures i in kept {
      assert xs[i] == RowPersona(rows[i]);
    }
    assert kept == named;
  }

  /** A single row yields its persona, or nothing. */
  lemma SingleRow(row: Row)
    ensures RowsToPersonas([row]) == (if RowPersona(row).Some? then [RowPersona(row).value] else [])
  {
    var xs := RowResults([row]);
    assert xs == [RowPersona(row)];
    assert xs[..0] == [];
  }

  /** `load_personas_from_csv` after the file is parsed: the per-row loop. */
  method LoadPersonas(rows: seq<Row>) returns (personas: seq<Persona>)
    ensures personas == RowsToPersonas(rows)
    ensures forall p :: p in personas ==> p.name != "" && Strip(p.name) == p.name
  {
    personas := [];
    for i := 0 to |rows|
      invariant personas == RowsToPersonas(rows[..i])
      invariant forall p :: p in personas ==> p.name != "" && Strip(p.name) == p.name
    {
      var row := rows[i];
      assert rows[..i + 1] == rows[..i] + [row];
      RowsToPersonasAppend(rows[..i], [row]);
      SingleRow(row);
      var name := Cell(row, "name");
      if name == "" {
        continue;
      }
      var description := BuildDescription(row);
      var persona := Persona(name, description, None, None);
      if "color" in row && row["color"] != "" {
        persona := persona.(color := Some(Strip(row["color"])));
      }
      if "emoji" in row && row["emoji"] != "" {
        persona := persona.(emoji := Some(Strip(row["emoji"])));
      }
      assert RowPersona(row) == Some(persona);
      personas := personas + [persona];
    }
    assert rows[..|rows|] == rows;
  }
}
