/** The record loader: the lines of the tools file become Tool records.
    A line is `Name,Type,Developer,Price,Tag;Tag;...`. */
module Catalog {
  import opened Wrappers
  import opened Text

  /** One tool of the catalog. `kind` holds the record's `type` field. */
  datatype Tool = Tool(name: string, kind: string, developer: string, price: int, tags: seq<string>)

  /** What the loader makes of one line. */
  datatype LineOutcome =
    | Blank                       // empty once stripped: skipped
    | WrongFieldCount             // not exactly five comma-separated fields: skipped
    | Parsed(tool: Tool)          // appended to the catalog
    | BadPrice(literal: string)   // int() raises ValueError on the price field

  /** The ValueError that int() raises on a bad price; the loader does not
      catch it, so loading stops with it. */
  datatype LoadError = InvalidPrice(literal: string)

  /** Every part with its surrounding whitespace removed. */
  function StripAll(parts: seq<string>): (r: seq<string>)
    ensures |r| == |parts|
    ensures forall k :: 0 <= k < |r| ==> IsStripped(r[k]) && StrippedFrom(parts[k], r[k])
  {
    assert forall k :: 0 <= k < |parts| ==> StrippedFrom(parts[k], Strip(parts[k])) by {
      forall k | 0 <= k < |parts| ensures StrippedFrom(parts[k], Strip(parts[k])) {
        StripFrom(parts[k]);
      }
    }
    seq(|parts|, k requires 0 <= k < |parts| => Strip(parts[k]))
  }

  /** The fields of a line: the stripped line cut at every comma, each piece stripped. */
  function Fields(line: string): seq<string>
  {
    StripAll(Split(Strip(line), ','))
  }

  /** The tags of the fifth field: the field cut at every semicolon, each piece stripped. */
  function ParseTags(field: string): seq<string>
  {
    StripAll(Split(field, ';'))
  }

  /** The body of the loader's loop, for one line. */
  function ParseLine(line: string): LineOutcome
  {
    if Strip(line) == [] then Blank
    else
      var f := Fields(line);
      if |f| != 5 then WrongFieldCount
      else match ParseInt(f[3])
        case None => BadPrice(f[3])
        case Some(p) => Parsed(Tool(f[0], f[1], f[2], p, ParseTags(f[4])))
  }

  /** A line has one field more than it has commas. */
  lemma FieldCount(line: string)
    ensures |Fields(line)| == multiset(line)[','] + 1
  {
    StripKeepsCount(line, ',');
    SplitPieces(Strip(line), ',');
  }

  /** The tag field split on ';', each tag stripped; an empty field gives [""]. */
  lemma TagsShape(field: string)
    ensures |ParseTags(field)| == multiset(field)[';'] + 1
    ensures forall k :: 0 <= k < |ParseTags(field)| ==> IsStripped(ParseTags(field)[k])
    ensures forall k :: 0 <= k < |ParseTags(field)| ==> ';' !in ParseTags(field)[k]
    ensures forall k :: 0 <= k < |ParseTags(field)| ==> StrippedFrom(Split(field, ';')[k], ParseTags(field)[k])
    ensures AllSpace(field) ==> ParseTags(field) == [[]]
  {
    var pieces := Split(field, ';');
    SplitPieces(field, ';');
    forall k | 0 <= k < |pieces| ensures ';' !in Strip(pieces[k]) {
      var pre, post := StripParts(pieces[k]);
    }
    if AllSpace(field) {
      assert ';' !in field;
      SplitNoSeparator(field, ';');
    }
  }

  /** Which lines are skipped, which become records, which stop the load,
      and that whatever is stored is stripped. */
  lemma ParseLineShape(line: string)
    ensures ParseLine(line).Blank? <==> AllSpace(line)
    ensures (ParseLine(line).Parsed? || ParseLine(line).BadPrice?) <==> !AllSpace(line) && multiset(line)[','] == 4
    ensures ParseLine(line).Parsed? ==>
      var t := ParseLine(line).tool;
      && t.name == Fields(line)[0] && t.kind == Fields(line)[1] && t.developer == Fields(line)[2]
      && IsStripped(t.name) && IsStripped(t.kind) && IsStripped(t.developer)
      && t.tags == ParseTags(Fields(line)[4])
      && Some(t.price) == ParseInt(Fields(line)[3])
    ensures ParseLine(line).BadPrice? ==>
      var literal := ParseLine(line).literal;
      IsStripped(literal) && literal == Fields(line)[3] && ParseInt(literal) == None
    ensures forall k :: 0 <= k < |Fields(line)| ==> StrippedFrom(Split(Strip(line), ',')[k], Fields(line)[k])
  {
    FieldCount(line);
  }

  /** What the loader makes of each line, in order. */
  function Outcomes(lines: seq<string>): (r: seq<LineOutcome>)
    ensures |r| == |lines|
  {
    seq(|lines|, i requires 0 <= i < |lines| => ParseLine(lines[i]))
  }

  /** The loader's loop over the outcomes of its lines: parsed records are
      appended in order, skipped lines add nothing, and the first bad price
      ends the loop with its error. */
  function Collect(outcomes: seq<LineOutcome>): (r: Result<seq<Tool>, LoadError>)
    ensures r.Ok? ==> |r.value| <= |outcomes|
    decreases |outcomes|
  {
    if outcomes == [] then Ok([])
    else
      var rest := Collect(outcomes[1..]);
      match outcomes[0]
      case BadPrice(literal) => Err(InvalidPrice(literal))
      case Parsed(t) => if rest.Ok? then Ok([t] + rest.value) else rest
      case Blank => rest
      case WrongFieldCount => rest
  }

  /** Collecting fails exactly when some outcome is a bad price; otherwise it
      keeps exactly the parsed records. */
  lemma {:induction false} CollectShape(outcomes: seq<LineOutcome>)
    ensures Collect(outcomes).Err? <==> exists i :: 0 <= i < |outcomes| && outcomes[i].BadPrice?
    ensures Collect(outcomes).Ok? ==> forall t :: t in Collect(outcomes).value <==> Parsed(t) in outcomes
    decreases |outcomes|
  {
    if outcomes != [] {
      CollectShape(outcomes[1..]);
      assert outcomes == [outcomes[0]] + outcomes[1..];
      assert forall i :: 0 < i < |outcomes| ==> outcomes[i] == outcomes[1..][i - 1];
    }
  }

  /** The catalog a file's lines load into, or the error that stops the load. */
  function Load(lines: seq<string>): Result<seq<Tool>, LoadError>
  {
    Collect(Outcomes(lines))
  }

  /** load_database on the lines the file was read into: each line's
      outcome is appended, skipped, or raised. */
  method LoadDatabase(lines: seq<string>) returns (r: Result<seq<Tool>, LoadError>)
    ensures r == Load(lines)
  {
    var database: seq<Tool> := [];
    var i := 0;
    while i < |lines|
      invariant 0 <= i <= |lines|
      invariant Load(lines[..i]) == Ok(database)
    {
      var outcome := ParseLine(lines[i]);
      LoadPrefixStep(lines, i, database);
      if outcome.BadPrice? {
        return Err(InvalidPrice(outcome.literal));
      }
      if outcome.Parsed? {
        database := database + [outcome.tool];
      }
      i := i + 1;
    }
    assert lines[..i] == lines;
    r := Ok(database);
  }

  // ---------------------------------------------------------------------
  // Properties of the loader

  /** Collecting is outcome by outcome: the first error wins, otherwise the
      records of both parts are concatenated in order. */
  lemma {:induction false} CollectConcat(a: seq<LineOutcome>, b: seq<LineOutcome>)
    ensures Collect(a + b) ==
      match Collect(a)
      case Err(e) => Err(e)
      case Ok(x) => (match Collect(b) case Err(e) => Err(e) case Ok(y) => Ok(x + y))
    decreases |a|
  {
    if a == [] {
      assert a + b == b;
      if Collect(b).Ok? {
        assert [] + Collect(b).value == Collect(b).value;
      }
    } else {
      assert (a + b)[0] == a[0] && (a + b)[1..] == a[1..] + b;
      CollectConcat(a[1..], b);
      match a[0]
      case Parsed(t) =>
        if Collect(a[1..]).Ok? && Collect(b).Ok? {
          assert [t] + (Collect(a[1..]).value + Collect(b).value) == ([t] + Collect(a[1..]).value) + Collect(b).value;
        }
      case _ =>
    }
  }

  /** Loading is line by line: the lines of a + b load into the records of a
      followed by the records of b, and the first error wins. */
  lemma LoadConcat(a: seq<string>, b: seq<string>)
    ensures Load(a + b) ==
      match Load(a)
      case Err(e) => Err(e)
      case Ok(x) => (match Load(b) case Err(e) => Err(e) case Ok(y) => Ok(x + y))
  {
    OutcomesConcat(a, b);
    CollectConcat(Outcomes(a), Outcomes(b));
  }

  /** The outcomes of a + b are those of a followed by those of b. */
  lemma OutcomesConcat(a: seq<string>, b: seq<string>)
    ensures Outcomes(a + b) == Outcomes(a) + Outcomes(b)
  {
    var lines := a + b;
    forall i | 0 <= i < |lines|
      ensures Outcomes(lines)[i] == (Outcomes(a) + Outcomes(b))[i]
    {
      if i < |a| {
        assert lines[i] == a[i];
      } else {
        assert lines[i] == b[i - |a|];
      }
    }
  }

  /** One line on its own. */
  lemma LoadOneLine(line: string)
    ensures Load([line]) == match ParseLine(line)
      case BadPrice(literal) => Err(InvalidPrice(literal))
      case Parsed(t) => Ok([t])
      case _ => Ok([])
  {
    assert Outcomes([line]) == [ParseLine(line)];
    CollectOne(ParseLine(line));
  }

  lemma CollectOne(o: LineOutcome)
    ensures Collect([o]) == match o
      case BadPrice(literal) => Err(InvalidPrice(literal))
      case Parsed(t) => Ok([t])
      case _ => Ok([])
  {
    assert [o][1..] == [];
    assert Collect([]) == Ok([]);
    if o.Parsed? {
      assert [o.tool] + [] == [o.tool];
    }
  }

  /** The branches of the loop body, one by one. */
  lemma ParseLineCases(line: string)
    ensures Strip(line) == [] ==> ParseLine(line) == Blank
    ensures Strip(line) != [] && |Fields(line)| != 5 ==> ParseLine(line) == WrongFieldCount
    ensures Strip(line) != [] && |Fields(line)| == 5 && ParseInt(Fields(line)[3]).None? ==>
      ParseLine(line) == BadPrice(Fields(line)[3])
    ensures Strip(line) != [] && |Fields(line)| == 5 && ParseInt(Fields(line)[3]).Some? ==>
      var f := Fields(line);
      ParseLine(line) == Parsed(Tool(f[0], f[1], f[2], ParseInt(f[3]).value, ParseTags(f[4])))
  {
  }

  /** The loop step of LoadDatabase: line i joins a prefix that loaded
      without error; a bad price there is the error of the whole load. */
  lemma LoadPrefixStep(lines: seq<string>, i: nat, loaded: seq<Tool>)
    requires i < |lines| && Load(lines[..i]) == Ok(loaded)
    ensures ParseLine(lines[i]).Parsed? ==> Load(lines[..i + 1]) == Ok(loaded + [ParseLine(lines[i]).tool])
    ensures ParseLine(lines[i]).Blank? || ParseLine(lines[i]).WrongFieldCount? ==> Load(lines[..i + 1]) == Ok(loaded)
    ensures ParseLine(lines[i]).BadPrice? ==> Load(lines) == Err(InvalidPrice(ParseLine(lines[i]).literal))
  {
    PrefixSnoc(lines, i);
    LoadStep(lines[..i], lines[i], loaded);
    if ParseLine(lines[i]).BadPrice? {
      LoadErrorStays(lines, i + 1);
    }
  }

  /** Once a prefix of the file fails to load, the whole file fails the same way. */
  lemma LoadErrorStays(lines: seq<string>, j: nat)
    requires j <= |lines| && Load(lines[..j]).Err?
    ensures Load(lines) == Load(lines[..j])
  {
    PrefixSplit(lines, j);
    LoadConcat(lines[..j], lines[j..]);
  }

  // Sequence facts kept apart, so that proving them does not see Load.

  lemma PrefixSnoc(lines: seq<string>, i: nat)
    requires i < |lines|
    ensures lines[..i + 1] == lines[..i] + [lines[i]]
  {
  }

  lemma PrefixSplit(lines: seq<string>, j: nat)
    requires j <= |lines|
    ensures lines == lines[..j] + lines[j..]
  {
  }

  /** Loading one more line after a prefix that loaded without error. */
  lemma LoadStep(prefix: seq<string>, line: string, loaded: seq<Tool>)
    requires Load(prefix) == Ok(loaded)
    ensures ParseLine(line).Parsed? ==> Load(prefix + [line]) == Ok(loaded + [ParseLine(line).tool])
    ensures ParseLine(line).BadPrice? ==> Load(prefix + [line]) == Err(InvalidPrice(ParseLine(line).literal))
    ensures ParseLine(line).Blank? || ParseLine(line).WrongFieldCount? ==> Load(prefix + [line]) == Ok(loaded)
  {
    LoadConcat(prefix, [line]);
    LoadOneLine(line);
    assert loaded + [] == loaded;
  }

  /** A blank line and a line without exactly five fields contribute nothing. */
  lemma LoadSkipsLine(a: seq<string>, line: string, b: seq<string>)
    requires ParseLine(line).Blank? || ParseLine(line).WrongFieldCount?
    ensures Load(a + [line] + b) == Load(a + b)
  {
    LoadConcat(a + [line], b);
    LoadConcat(a, [line]);
    LoadConcat(a, b);
    LoadOneLine(line);
    if Load(a).Ok? {
      assert Load(a).value + [] == Load(a).value;
    }
  }

  /** A parsed line adds its record at its own place. */
  lemma LoadKeepsRecord(a: seq<string>, line: string, b: seq<string>)
    requires ParseLine(line).Parsed?
    requires Load(a).Ok? && Load(b).Ok?
    ensures Load(a + [line] + b) == Ok(Load(a).value + [ParseLine(line).tool] + Load(b).value)
  {
    LoadConcat(a + [line], b);
    LoadConcat(a, [line]);
    LoadOneLine(line);
  }

  /** The load fails exactly when some line has five fields and a price that
      int() rejects; otherwise the catalog holds exactly the parsed records. */
  lemma LoadOutcome(lines: seq<string>)
    ensures Load(lines).Err? <==> exists i :: 0 <= i < |lines| && ParseLine(lines[i]).BadPrice?
    ensures Load(lines).Ok? ==>
      forall t :: t in Load(lines).value <==> exists i :: 0 <= i < |lines| && ParseLine(lines[i]) == Parsed(t)
  {
    var os := Outcomes(lines);
    CollectShape(os);
    assert forall i :: 0 <= i < |lines| ==> os[i] == ParseLine(lines[i]);
  }

  lemma {:induction false} CollectFirstBadPrice(outcomes: seq<LineOutcome>, i: nat)
    requires i < |outcomes| && outcomes[i].BadPrice?
    requires forall j :: 0 <= j < i ==> !outcomes[j].BadPrice?
    ensures Collect(outcomes) == Err(InvalidPrice(outcomes[i].literal))
    decreases i
  {
    if i > 0 {
      assert outcomes[1..][i - 1] == outcomes[i];
      assert forall j :: 0 <= j < i - 1 ==> outcomes[1..][j] == outcomes[j + 1];
      CollectFirstBadPrice(outcomes[1..], i - 1);
    }
  }

  /** The error names the price of the first bad line. */
  lemma LoadFirstBadPrice(lines: seq<string>, i: nat)
    requires i < |lines| && ParseLine(lines[i]).BadPrice?
    requires forall j :: 0 <= j < i ==> !ParseLine(lines[j]).BadPrice?
    ensures Load(lines) == Err(InvalidPrice(ParseLine(lines[i]).literal))
  {
    var os := Outcomes(lines);
    assert forall j :: 0 <= j < |lines| ==> os[j] == ParseLine(lines[j]);
    CollectFirstBadPrice(os, i);
  }

  // ---------------------------------------------------------------------
  // Writing a record back as a line, and reading it again

  /** The line a tool is written as in the tools file. */
  function RecordLine(t: Tool): string {
    Join(RecordFields(t), ",")
  }

  /** The five fields of that line, in file order. */
  function RecordFields(t: Tool): seq<string> {
    [t.name, t.kind, t.developer, ShowInt(t.price), Join(t.tags, ";")]
  }

  /** The tools that some line of the file loads into: text fields and tags
      already stripped, no ',' inside a field and no ';' inside a tag, and at
      least one tag (split() always yields one). */
  predicate Writable(t: Tool) {
    && IsStripped(t.name) && ',' !in t.name
    && IsStripped(t.kind) && ',' !in t.kind
    && IsStripped(t.developer) && ',' !in t.developer
    && |t.tags| >= 1
    && forall k :: 0 <= k < |t.tags| ==> IsStripped(t.tags[k]) && ',' !in t.tags[k] && ';' !in t.tags[k]
  }

  lemma StrippedAround(x: string, c: char, y: string)
    requires IsStripped(x) && IsStripped(y) && !IsSpace(c)
    ensures IsStripped(x + [c] + y)
  {
    var s := x + [c] + y;
    assert s[0] == if x == [] then c else x[0];
    assert s[|s| - 1] == if y == [] then c else y[|y| - 1];
  }

  lemma {:induction false} JoinStripped(parts: seq<string>, c: char)
    requires !IsSpace(c)
    requires forall k :: 0 <= k < |parts| ==> IsStripped(parts[k])
    ensures IsStripped(Join(parts, [c]))
    decreases |parts|
  {
    if |parts| > 1 {
      JoinStripped(parts[1..], c);
      StrippedAround(parts[0], c, Join(parts[1..], [c]));
    }
  }

  lemma {:induction false} JoinAvoids(parts: seq<string>, sep: char, c: char)
    requires c != sep
    requires forall k :: 0 <= k < |parts| ==> c !in parts[k]
    ensures c !in Join(parts, [sep])
    decreases |parts|
  {
    if |parts| > 1 {
      JoinAvoids(parts[1..], sep, c);
    }
  }

  lemma StripAllStripped(parts: seq<string>)
    requires forall k :: 0 <= k < |parts| ==> IsStripped(parts[k])
    ensures StripAll(parts) == parts
  {
    forall k | 0 <= k < |parts| ensures StripAll(parts)[k] == parts[k] {
      StripStripped(parts[k]);
    }
  }

  lemma ShowIntShape(n: int)
    ensures IsStripped(ShowInt(n)) && ',' !in ShowInt(n) && !AllSpace(ShowInt(n))
  {
    var s := ShowInt(n);
    var d := ShowNat(if n < 0 then -n else n);
    assert s[|s| - 1] == d[|d| - 1];
    assert forall i :: 0 <= i < |s| ==> s[i] == '-' || IsDigit(s[i]) by {
      if n < 0 {
        assert forall i :: 1 <= i < |s| ==> s[i] == d[i - 1];
      }
    }
  }

  /** The price alone keeps a written record from being blank. */
  lemma RecordLineNotBlank(t: Tool)
    ensures !AllSpace(RecordLine(t))
  {
    var price := ShowInt(t.price);
    var line := RecordLine(t);
    ShowIntShape(t.price);
    ContainsPiece(RecordFields(t), ",", 3);
    ContainsAt(line, price);
    var i :| 0 <= i <= |line| && StartsWith(line[i..], price);
    var j :| 0 <= j < |price| && !IsSpace(price[j]);
    assert line[i + j] == price[j];
  }

  /** Each field of a written record is stripped and free of commas. */
  lemma RecordFieldsClean(t: Tool)
    requires Writable(t)
    ensures |RecordFields(t)| == 5
    ensures forall k :: 0 <= k < 5 ==> IsStripped(RecordFields(t)[k]) && ',' !in RecordFields(t)[k]
  {
    ShowIntShape(t.price);
    JoinStripped(t.tags, ';');
    JoinAvoids(t.tags, ';', ',');
  }

  /** A written record is a non-blank line whose fields are the record's. */
  lemma RecordLineFields(t: Tool)
    requires Writable(t)
    ensures Strip(RecordLine(t)) != []
    ensures Fields(RecordLine(t)) == RecordFields(t)
  {
    var fields := RecordFields(t);
    RecordFieldsClean(t);
    JoinStripped(fields, ',');
    StripStripped(RecordLine(t));
    RecordLineNotBlank(t);
    SplitOfJoin(fields, ',');
    StripAllStripped(fields);
  }

  /** Reading a written record gives the record back. */
  lemma ParseRecordLine(t: Tool)
    requires Writable(t)
    ensures ParseLine(RecordLine(t)) == Parsed(t)
  {
    RecordLineFields(t);
    ParseShowInt(t.price);
    SplitOfJoin(t.tags, ';');
    StripAllStripped(t.tags);
    ParseLineCases(RecordLine(t));
  }

  // ---------------------------------------------------------------------
  // A line whose price int() rejects

  /** Five clean fields whose price int() rejects: the line is not skipped,
      it stops the load. */
  lemma LoadRejectsPrice(fields: seq<string>)
    requires |fields| == 5
    requires forall k :: 0 <= k < 5 ==> IsStripped(fields[k]) && ',' !in fields[k]
    requires ParseInt(fields[3]) == None
    ensures Load([Join(fields, ",")]) == Err(InvalidPrice(fields[3]))
  {
    var line := Join(fields, ",");
    JoinStripped(fields, ',');
    StripStripped(line);
    SplitOfJoin(fields, ',');
    StripAllStripped(fields);
    assert Fields(line) == fields;
    ParseLineCases(line);
    LoadOneLine(line);
  }
}
