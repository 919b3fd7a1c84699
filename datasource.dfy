// The station file and the saved rate table. DataSource.saveStations writes
// one line per route, every subway route before every bus route:
//     name(Subway): first - second - ... - last;
// and Main.readStations reads such a file back into the two route tables.
// A file is its text; Scanner's lines are its pieces between '\n's, without
// an empty last piece after a final '\n'. The tables' key sets are iterated
// in the order given with them.

module Storage {
  import opened Wrappers
  import opened Text
  import opened Fares
  import opened RouteGraph
  import opened Legs
  import opened Lists

  // ---------------------------------------------------------------------------
  // lines of a text file

  /** The lines Scanner.nextLine returns one by one, for a text whose only line terminator is '\n'. */
  function Lines(text: string): seq<string>
  {
    var parts := SplitAll(text, '\n');
    if parts[|parts| - 1] == "" then parts[..|parts| - 1] else parts
  }

  /** What writing each line followed by System.lineSeparator() leaves in the file. */
  function Unlines(lines: seq<string>): string
  {
    if lines == [] then "" else Unlines(lines[..|lines| - 1]) + lines[|lines| - 1] + NL
  }

  lemma {:induction false} UnlinesJoin(lines: seq<string>)
    ensures Unlines(lines) == Join(NL, lines + [""])
  {
    if lines != [] {
      var init, x := lines[..|lines| - 1], lines[|lines| - 1];
      UnlinesJoin(init);
      assert lines + [""] == (init + [x]) + [""];
      JoinSnoc(NL, init + [x], "");
      if init == [] {
        assert init + [x] == [x];
        assert init + [""] == [""];
      } else {
        JoinSnoc(NL, init, x);
        JoinSnoc(NL, init, "");
        var j := Join(NL, init);
        assert Join(NL, init + [""]) == j + NL;
        assert Join(NL, init + [x]) == j + NL + x;
      }
    }
  }

  /** Reading back the lines of a written file gives them again, when none holds a '\n'. */
  lemma LinesUnlines(lines: seq<string>)
    requires forall k :: 0 <= k < |lines| ==> '\n' !in lines[k]
    ensures Lines(Unlines(lines)) == lines
  {
    UnlinesJoin(lines);
    SplitAllJoin(lines + [""], '\n');
    assert (lines + [""])[..|lines|] == lines;
  }

  // ---------------------------------------------------------------------------
  // saveStations

  /** One line of the station file, without its line separator. */
  function RouteLine(name: string, kind: string, stations: seq<string>): string
  {
    name + "(" + kind + ")" + ": " + Join(" - ", stations) + ";"
  }

  /** The lines of one table, in its iteration order. */
  function RouteLines(table: RouteTable, order: seq<string>, kind: string): (lines: seq<string>)
    requires forall k :: 0 <= k < |order| ==> order[k] in table
    ensures |lines| == |order|
    ensures forall k :: 0 <= k < |order| ==> lines[k] == RouteLine(order[k], kind, table[order[k]])
  {
    seq(|order|, i requires 0 <= i < |order| => RouteLine(order[i], kind, table[order[i]]))
  }

  /** The station file saveStations writes: the subway lines, then the bus lines. */
  function StationFile(net: Network, busOrder: seq<string>): string
    requires ValidNetwork(net) && IsOrderOf(net.busRoutes, busOrder)
  {
    Unlines(RouteLines(net.subwayRoutes, net.subwayOrder, "Subway") + RouteLines(net.busRoutes, busOrder, "Bus"))
  }

  /** Writing one more line appends it and the separator. */
  lemma UnlinesSnoc(lines: seq<string>, line: string)
    ensures Unlines(lines + [line]) == Unlines(lines) + line + NL
  {
    assert (lines + [line])[..|lines|] == lines;
  }

  /** One iteration of either loop of saveStations: the route's line and the separator. */
  method WriteRoute(text: string, route: string, kind: string, stations: seq<string>) returns (t: string)
    ensures t == text + RouteLine(route, kind, stations) + NL
  {
    t := text + route + "(" + kind + ")" + ": ";
    t := t + Join(" - ", stations);
    t := t + ";";
    t := t + NL;
  }

  /** Adding the empty text on either side changes nothing. */
  lemma EmptyText(s: string)
    ensures "" + s == s && s + "" == s
  {
  }

  /** Writing two lists of lines one after the other. */
  lemma {:induction false} UnlinesConcat(a: seq<string>, b: seq<string>)
    ensures Unlines(a + b) == Unlines(a) + Unlines(b)
    decreases |b|
  {
    if b == [] {
      assert a + b == a;
      EmptyText(Unlines(a));
    } else {
      var init, x := b[..|b| - 1], b[|b| - 1];
      assert b == init + [x];
      assert a + b == (a + init) + [x];
      UnlinesConcat(a, init);
      UnlinesSnoc(a + init, x);
      UnlinesSnoc(init, x);
      var u, v := Unlines(a), Unlines(init);
      AppendAssoc(u, v, x);
      AppendAssoc(u, v + x, NL);
    }
  }

  /** One loop of saveStations: a line per route of the table, in its iteration order. */
  method WriteTable(text: string, table: RouteTable, order: seq<string>, kind: string) returns (t: string)
    requires forall k :: 0 <= k < |order| ==> order[k] in table
    ensures t == text + Unlines(RouteLines(table, order, kind))
  {
    ghost var lines := RouteLines(table, order, kind);
    t := text;
    var i := 0;
    while i < |order|
      invariant 0 <= i <= |order|
      invariant t == text + Unlines(lines[..i])
    {
      var route := order[i];
      t := WriteRoute(t, route, kind, table[route]);
      UnlinesSnoc(lines[..i], lines[i]);
      assert lines[..i + 1] == lines[..i] + [lines[i]];
      i := i + 1;
    }
    assert lines[..i] == lines;
  }

  /** saveStations: every subway route, then every bus route. */
  method SaveStations(net: Network, busOrder: seq<string>) returns (text: string)
    requires ValidNetwork(net) && IsOrderOf(net.busRoutes, busOrder)
    ensures text == StationFile(net, busOrder)
  {
    text := WriteTable("", net.subwayRoutes, net.subwayOrder, "Subway");
    EmptyText(Unlines(RouteLines(net.subwayRoutes, net.subwayOrder, "Subway")));
    text := WriteTable(text, net.busRoutes, busOrder, "Bus");
    UnlinesConcat(RouteLines(net.subwayRoutes, net.subwayOrder, "Subway"), RouteLines(net.busRoutes, busOrder, "Bus"));
  }

  // ---------------------------------------------------------------------------
  // readStations

  datatype ReadError =
    | IndexOutOfBounds   // a substring whose bounds the line does not have
    | FileRead(kind: string)   // a transit type other than subway or bus

  /**
   * One line: the route name before the first '(', the transit type from
   * after it to the character before the first ':', and the stations from
   * two characters after that ':' to the first ';', split at '-' and each
   * trimmed.
   */
  function ParseLine(line: string): Result<(string, string, seq<string>), ReadError>
  {
    var nameEnd := IndexOf(line, '(');
    var column := IndexOf(line, ':');
    var semicolon := IndexOf(line, ';');
    if nameEnd < 0 || column - 1 < nameEnd + 1 || semicolon < column + 2 then Err(IndexOutOfBounds)
    else Ok(Fields(line, nameEnd, column, semicolon))
  }

  /** The name, the type and the trimmed stations between the delimiters at n, c and s. */
  function Fields(line: string, n: nat, c: nat, s: nat): (string, string, seq<string>)
    requires n + 1 <= c - 1 && c + 2 <= s <= |line|
  {
    (line[..n], line[n + 1..c - 1], TrimAll(Split(line[c + 2..s], '-')))
  }

  /** Each piece trimmed, in order. */
  function TrimAll(pieces: seq<string>): seq<string>
  {
    if pieces == [] then [] else [Trim(pieces[0])] + TrimAll(pieces[1..])
  }

  lemma {:induction false} TrimAllAt(pieces: seq<string>)
    ensures |TrimAll(pieces)| == |pieces|
    ensures forall k :: 0 <= k < |pieces| ==> TrimAll(pieces)[k] == Trim(pieces[k])
  {
    if pieces != [] {
      TrimAllAt(pieces[1..]);
    }
  }

  /** A line trim leaves empty: every char is a blank one. */
  predicate Blank(line: string)
  {
    forall k :: 0 <= k < |line| ==> IsTrimmable(line[k])
  }

  lemma BlankIsTrimEmpty(line: string)
    ensures Blank(line) <==> Trim(line) == ""
  {
    TrimEmptyIff(line);
  }

  /** The body of the loop of readStations for a line that is not blank. */
  function Step(line: string, subway: RouteTable, bus: RouteTable): Result<(RouteTable, RouteTable), ReadError>
  {
    match ParseLine(line)
    case Err(e) => Err(e)
    case Ok(parsed) =>
      var (name, kind, stations) := parsed;
      if EqualsIgnoreCase(kind, "subway") then Ok((subway[name := stations], bus))
      else if EqualsIgnoreCase(kind, "bus") then Ok((subway, bus[name := stations]))
      else Err(FileRead(kind))
  }

  /**
   * The loop of readStations from the given tables on: it stops at the end
   * or at the first blank line; a subway or bus line puts its route into
   * that table, replacing a route of the same name.
   */
  function ReadLines(lines: seq<string>, subway: RouteTable, bus: RouteTable): Result<(RouteTable, RouteTable), ReadError>
  {
    if lines == [] || Blank(lines[0]) then Ok((subway, bus))
    else match Step(lines[0], subway, bus)
      case Err(e) => Err(e)
      case Ok(tables) => ReadLines(lines[1..], tables.0, tables.1)
  }

  /** One line of readStations: its route goes into the table its type names. */
  method ReadLine(thisLine: string, subwayStation: RouteTable, busStation: RouteTable)
    returns (r: Result<(RouteTable, RouteTable), ReadError>)
    ensures r == Step(thisLine, subwayStation, busStation)
  {
    var parsed := ParseLine(thisLine);
    if parsed.Err? {
      return Err(parsed.error);
    }
    var (routeName, transitType, thisRoute) := parsed.value;
    if EqualsIgnoreCase(transitType, "subway") {
      return Ok((subwayStation[routeName := thisRoute], busStation));
    } else if EqualsIgnoreCase(transitType, "bus") {
      return Ok((subwayStation, busStation[routeName := thisRoute]));
    }
    return Err(FileRead(transitType));
  }

  /** readStations on the file's text: the subway table and the bus table, or why reading failed. */
  method ReadStations(text: string) returns (r: Result<(RouteTable, RouteTable), ReadError>)
    ensures r == ReadLines(Lines(text), map[], map[])
  {
    var lines := Lines(text);
    var subwayStation: RouteTable := map[];
    var busStation: RouteTable := map[];
    var i := 0;
    while i < |lines|
      invariant 0 <= i <= |lines|
      invariant ReadLines(lines[i..], subwayStation, busStation) == ReadLines(lines, map[], map[])
    {
      BlankIsTrimEmpty(lines[i]);
      if Trim(lines[i]) == "" {
        break;
      }
      assert lines[i..][1..] == lines[i + 1..];
      var next := ReadLine(lines[i], subwayStation, busStation);
      if next.Err? {
        return next;
      }
      subwayStation, busStation := next.value.0, next.value.1;
      i := i + 1;
    }
    return Ok((subwayStation, busStation));
  }

  // ---------------------------------------------------------------------------
  // the round trip

  /** A route name, or a transit type, the format can carry. */
  predicate PlainName(name: string)
  {
    '(' !in name && ':' !in name && ';' !in name && '\n' !in name
  }

  /** A station name the format can carry. */
  predicate PlainStation(station: string)
  {
    '-' !in station && ';' !in station && '\n' !in station && IsTrimmed(station)
  }

  predicate PlainStations(stations: seq<string>)
  {
    forall k :: 0 <= k < |stations| ==> PlainStation(stations[k])
  }

  /** A table every route of which the format can carry: plain names, plain stations, at least one station. */
  predicate Writable(table: RouteTable)
  {
    forall r :: r in table ==> PlainName(r) && |table[r]| >= 1 && PlainStations(table[r])
  }

  lemma KindsArePlain()
    ensures PlainName("Subway") && PlainName("Bus")
    ensures EqualsIgnoreCase("Subway", "subway") && EqualsIgnoreCase("Bus", "bus")
    ensures !EqualsIgnoreCase("Bus", "subway")
  {
    assert "Bus"[0] == 'B' && LowerAscii('B') == 'b' && LowerAscii("subway"[0]) == 's';
  }

  /** A station with a space before it, after it, both or neither. */
  function Pad(station: string, before: bool, after: bool): string
  {
    if before && after then " " + station + " "
    else if before then " " + station
    else if after then station + " "
    else station
  }

  /** Trimming a padded plain station gives it back, and the padding adds no '-'. */
  lemma PadPlain(station: string, before: bool, after: bool)
    requires PlainStation(station)
    ensures Trim(Pad(station, before, after)) == station
    ensures '-' !in Pad(station, before, after)
  {
    if before && after {
      TrimSpaceAround(station);
    } else if before {
      TrimSpaceBefore(station);
    } else if after {
      TrimSpaceAfter(station);
    } else {
      TrimTrimmed(station);
    }
  }

  /**
   * The pieces a joined route splits into at '-': every station but the
   * first gains a space before it, every station but the last a space after.
   */
  function Pieces(stations: seq<string>, first: bool): (r: seq<string>)
    requires |stations| >= 1
    ensures |r| == |stations|
    decreases |stations|
  {
    if |stations| == 1 then [Pad(stations[0], first, false)]
    else [Pad(stations[0], first, true)] + Pieces(stations[1..], true)
  }

  lemma {:induction false} PiecesAt(stations: seq<string>, first: bool)
    requires |stations| >= 1
    ensures forall k :: 0 <= k < |stations| ==>
      Pieces(stations, first)[k] == Pad(stations[k], k > 0 || first, k < |stations| - 1)
    decreases |stations|
  {
    if |stations| > 1 {
      PiecesAt(stations[1..], true);
    }
  }

  lemma {:induction false} JoinPieces(stations: seq<string>, first: bool)
    requires |stations| >= 1
    ensures first ==> Join("-", Pieces(stations, first)) == " " + Join(" - ", stations)
    ensures !first ==> Join("-", Pieces(stations, first)) == Join(" - ", stations)
    decreases |stations|
  {
    if |stations| > 1 {
      JoinPieces(stations[1..], true);
      assert Pieces(stations, first)[1..] == Pieces(stations[1..], true);
    }
  }

  /** No char that occurs in neither the separator nor the parts occurs in the join. */
  lemma {:induction false} JoinFree(sep: string, parts: seq<string>, c: char)
    requires c !in sep && forall k :: 0 <= k < |parts| ==> c !in parts[k]
    ensures c !in Join(sep, parts)
  {
    if |parts| > 1 {
      JoinFree(sep, parts[1..], c);
    }
  }

  /** The pieces of a plain route hold no '-' and trim back to its stations. */
  lemma PiecesPlain(stations: seq<string>)
    requires |stations| >= 1 && PlainStations(stations)
    ensures forall k :: 0 <= k < |stations| ==> '-' !in Pieces(stations, false)[k]
    ensures TrimAll(Pieces(stations, false)) == stations
  {
    var p := Pieces(stations, false);
    PiecesAt(stations, false);
    TrimAllAt(p);
    forall k | 0 <= k < |stations| ensures '-' !in p[k] && Trim(p[k]) == stations[k] {
      PadPlain(stations[k], k > 0, k < |stations| - 1);
    }
  }

  /** Splitting a join of pieces free of c gives them back, unless the last of several is empty. */
  lemma SplitJoin(parts: seq<string>, c: char)
    requires |parts| >= 1 && forall k :: 0 <= k < |parts| ==> c !in parts[k]
    requires |parts| > 1 ==> parts[|parts| - 1] != ""
    ensures Split(Join([c], parts), c) == parts
  {
    var s := Join([c], parts);
    SplitAllJoin(parts, c);
    if |parts| == 1 {
      assert s == parts[0];
    } else {
      assert s == parts[0] + [c] + Join([c], parts[1..]);
      assert s[|parts[0]|] == c;
    }
  }

  /** Split drops no piece of a joined route: the last one is not empty unless it is the only one. */
  lemma SplitPieces(stations: seq<string>)
    requires |stations| >= 1
    requires forall k :: 0 <= k < |stations| ==> '-' !in Pieces(stations, false)[k]
    ensures Split(Join("-", Pieces(stations, false)), '-') == Pieces(stations, false)
  {
    var p := Pieces(stations, false);
    if |stations| > 1 {
      PiecesAt(stations, false);
      assert p[|p| - 1] == " " + stations[|p| - 1];
    }
    SplitJoin(p, '-');
  }

  /** Splitting a joined plain route at '-' gives its pieces. */
  lemma SplitJoined(stations: seq<string>)
    requires |stations| >= 1 && PlainStations(stations)
    ensures Split(Join(" - ", stations), '-') == Pieces(stations, false)
  {
    JoinPieces(stations, false);
    PiecesPlain(stations);
    SplitPieces(stations);
  }

  /** The stations of a plain route come back from split and trim. */
  lemma SplitStations(stations: seq<string>)
    requires |stations| >= 1 && PlainStations(stations)
    ensures TrimAll(Split(Join(" - ", stations), '-')) == stations
  {
    SplitJoined(stations);
    PiecesPlain(stations);
  }

  /** The first c in a + b is the first char of b, when a holds none. */
  lemma IndexAfter(a: string, b: string, c: char)
    requires c !in a && |b| > 0 && b[0] == c
    ensures IndexOf(a + b, c) == |a|
  {
    IndexOfAt(a + b, c, |a|);
  }

  /** Text appended after a c does not move the first c. */
  lemma IndexBefore(a: string, b: string, c: char)
    requires c in a
    ensures IndexOf(a + b, c) == IndexOf(a, c)
  {
    var i := IndexOf(a, c);
    assert forall k :: 0 <= k < i ==> a[k] in a[..i];
    IndexOfAt(a + b, c, i);
  }

  /** The first '(' of a route line ends its name. */
  lemma OpenAt(name: string, kind: string, j: string)
    requires '(' !in name
    ensures IndexOf(name + "(" + kind + ")" + ": " + j + ";", '(') == |name|
  {
    var p1 := name + "(";
    IndexAfter(name, "(", '(');
    assert '(' in p1;
    IndexBefore(p1, kind, '(');
    IndexBefore(p1 + kind, ")", '(');
    IndexBefore(p1 + kind + ")", ": ", '(');
    IndexBefore(p1 + kind + ")" + ": ", j, '(');
    IndexBefore(p1 + kind + ")" + ": " + j, ";", '(');
  }

  /** The first ':' of a route line follows its type and the ')'. */
  lemma ColonAt(name: string, kind: string, j: string)
    requires ':' !in name && ':' !in kind
    ensures IndexOf(name + "(" + kind + ")" + ": " + j + ";", ':') == |name| + |kind| + 2
  {
    var p3 := name + "(" + kind + ")";
    assert ':' !in p3;
    IndexAfter(p3, ": ", ':');
    assert ':' in p3 + ": ";
    IndexBefore(p3 + ": ", j, ':');
    IndexBefore(p3 + ": " + j, ";", ':');
  }

  /** A c appended after text free of c is the first one. */
  lemma EndAt(p: string, j: string)
    requires ';' !in p && ';' !in j
    ensures IndexOf(p + j + ";", ';') == |p| + |j|
  {
    IndexAfter(p + j, ";", ';');
  }

  /** The head of a route line, up to its stations, holds no ';'. */
  lemma HeadFree(name: string, kind: string)
    requires ';' !in name && ';' !in kind
    ensures ';' !in name + "(" + kind + ")" + ": "
  {
  }

  /** The three substrings readStations takes from a route line. */
  lemma FieldsOf(name: string, kind: string, j: string)
    ensures var line := name + "(" + kind + ")" + ": " + j + ";";
      var n, c := |name|, |name| + |kind| + 2;
      line[..n] == name && line[n + 1..c - 1] == kind && line[c + 2..c + 2 + |j|] == j
      && line[n] == '('
  {
  }

  /** A route line is not blank: its '(' is not a blank char. */
  lemma RouteLineNotBlank(name: string, kind: string, stations: seq<string>)
    ensures !Blank(RouteLine(name, kind, stations))
  {
    var line := RouteLine(name, kind, stations);
    FieldsOf(name, kind, Join(" - ", stations));
    assert !IsTrimmable(line[|name|]);
  }

  /** A line with its delimiters in order parses into the three fields between them. */
  lemma ParseAt(line: string, n: nat, c: nat, s: nat)
    requires IndexOf(line, '(') == n && IndexOf(line, ':') == c && IndexOf(line, ';') == s
    requires n + 2 <= c && c + 2 <= s
    ensures ParseLine(line) == Ok(Fields(line, n, c, s))
  {
  }

  /** A line whose delimiters sit around the given fields parses into them. */
  lemma ParseFields(line: string, n: nat, c: nat, s: nat, name: string, kind: string, stations: seq<string>)
    requires IndexOf(line, '(') == n && IndexOf(line, ':') == c && IndexOf(line, ';') == s
    requires n + 2 <= c && c + 2 <= s
    requires line[..n] == name && line[n + 1..c - 1] == kind
    requires TrimAll(Split(line[c + 2..s], '-')) == stations
    ensures ParseLine(line) == Ok((name, kind, stations))
  {
    ParseAt(line, n, c, s);
  }

  /** A route line, its stations already joined into j, parses back into its parts. */
  lemma ParseJoined(name: string, kind: string, j: string, stations: seq<string>)
    requires PlainName(name) && PlainName(kind) && ';' !in j
    requires TrimAll(Split(j, '-')) == stations
    ensures ParseLine(name + "(" + kind + ")" + ": " + j + ";") == Ok((name, kind, stations))
  {
    var n, c := |name|, |name| + |kind| + 2;
    var line := name + "(" + kind + ")" + ": " + j + ";";
    assert IndexOf(line, '(') == n by { OpenAt(name, kind, j); }
    assert IndexOf(line, ':') == c by { ColonAt(name, kind, j); }
    assert IndexOf(line, ';') == c + 2 + |j| by {
      HeadFree(name, kind);
      EndAt(name + "(" + kind + ")" + ": ", j);
    }
    assert line[..n] == name && line[n + 1..c - 1] == kind && line[c + 2..c + 2 + |j|] == j by {
      FieldsOf(name, kind, j);
    }
    ParseFields(line, n, c, c + 2 + |j|, name, kind, stations);
  }

  /** A line saveStations writes parses back into its name, its type and its stations. */
  lemma ParseRouteLine(name: string, kind: string, stations: seq<string>)
    requires PlainName(name) && PlainName(kind)
    requires |stations| >= 1 && PlainStations(stations)
    ensures ParseLine(RouteLine(name, kind, stations)) == Ok((name, kind, stations))
  {
    var j := Join(" - ", stations);
    JoinFree(" - ", stations, ';');
    SplitStations(stations);
    ParseJoined(name, kind, j, stations);
  }

  /** A line that is not blank and parses into the given route of the given type. */
  predicate Parses(line: string, name: string, kind: string, stations: seq<string>)
  {
    !Blank(line) && ParseLine(line) == Ok((name, kind, stations))
  }

  /** Every line saveStations writes for a writable table parses into its route. */
  lemma RouteLinesParse(table: RouteTable, order: seq<string>, kind: string)
    requires forall k :: 0 <= k < |order| ==> order[k] in table
    requires Writable(table) && (kind == "Subway" || kind == "Bus")
    ensures forall k :: 0 <= k < |order| ==>
      Parses(RouteLines(table, order, kind)[k], order[k], kind, table[order[k]])
  {
    KindsArePlain();
    forall k | 0 <= k < |order|
      ensures Parses(RouteLines(table, order, kind)[k], order[k], kind, table[order[k]])
    {
      RouteLineNotBlank(order[k], kind, table[order[k]]);
      ParseRouteLine(order[k], kind, table[order[k]]);
    }
  }

  /** The step for a line that parses into a subway or bus route puts the route into that table. */
  lemma StepParsed(line: string, name: string, kind: string, stations: seq<string>, subway: RouteTable, bus: RouteTable)
    requires Parses(line, name, kind, stations) && (kind == "Subway" || kind == "Bus")
    ensures Step(line, subway, bus) ==
      if kind == "Subway" then Ok((subway[name := stations], bus)) else Ok((subway, bus[name := stations]))
  {
    KindsArePlain();
  }

  /** Putting the routes named by the order, one by one, into a table. */
  function PutAll(m: RouteTable, table: RouteTable, order: seq<string>): RouteTable
    requires forall k :: 0 <= k < |order| ==> order[k] in table
    decreases |order|
  {
    if order == [] then m else PutAll(m[order[0] := table[order[0]]], table, order[1..])
  }

  lemma {:induction false} PutAllSpec(m: RouteTable, table: RouteTable, order: seq<string>)
    requires forall k :: 0 <= k < |order| ==> order[k] in table
    ensures forall r :: r in PutAll(m, table, order) <==> r in m || r in order
    ensures forall r :: r in order ==> PutAll(m, table, order)[r] == table[r]
    ensures forall r :: r in m && r !in order ==> PutAll(m, table, order)[r] == m[r]
    decreases |order|
  {
    if order != [] {
      PutAllSpec(m[order[0] := table[order[0]]], table, order[1..]);
      assert forall r :: r in order <==> r == order[0] || r in order[1..];
    }
  }

  /** Putting every route of a table, in its iteration order, into an empty table gives the table. */
  lemma PutAllOrder(table: RouteTable, order: seq<string>)
    requires IsOrderOf(table, order)
    ensures PutAll(map[], table, order) == table
  {
    PutAllSpec(map[], table, order);
  }

  /** Reading lines that parse into routes of one type puts those routes, in order, into its table. */
  lemma {:induction false} ReadParsed(lines: seq<string>, table: RouteTable, order: seq<string>, kind: string, rest: seq<string>, subway: RouteTable, bus: RouteTable)
    requires |lines| == |order| && forall k :: 0 <= k < |order| ==> order[k] in table
    requires kind == "Subway" || kind == "Bus"
    requires forall k :: 0 <= k < |order| ==> Parses(lines[k], order[k], kind, table[order[k]])
    ensures ReadLines(lines + rest, subway, bus) ==
      if kind == "Subway" then ReadLines(rest, PutAll(subway, table, order), bus)
      else ReadLines(rest, subway, PutAll(bus, table, order))
    decreases |order|
  {
    if order == [] {
      assert lines + rest == rest;
    } else {
      var r := order[0];
      StepParsed(lines[0], r, kind, table[r], subway, bus);
      assert (lines + rest)[0] == lines[0];
      assert (lines + rest)[1..] == lines[1..] + rest;
      if kind == "Subway" {
        ReadParsed(lines[1..], table, order[1..], kind, rest, subway[r := table[r]], bus);
      } else {
        ReadParsed(lines[1..], table, order[1..], kind, rest, subway, bus[r := table[r]]);
      }
    }
  }

  /** No line saveStations writes holds a line separator. */
  lemma RouteLinesOneLine(table: RouteTable, order: seq<string>, kind: string)
    requires forall k :: 0 <= k < |order| ==> order[k] in table
    requires Writable(table) && (kind == "Subway" || kind == "Bus")
    ensures forall k :: 0 <= k < |order| ==> '\n' !in RouteLines(table, order, kind)[k]
  {
    KindsArePlain();
    forall k | 0 <= k < |order| ensures '\n' !in RouteLines(table, order, kind)[k] {
      JoinFree(" - ", table[order[k]], '\n');
    }
  }

  /** The lines of the station file are the lines saveStations wrote. */
  lemma FileLines(net: Network, busOrder: seq<string>)
    requires ValidNetwork(net) && IsOrderOf(net.busRoutes, busOrder)
    requires Writable(net.subwayRoutes) && Writable(net.busRoutes)
    ensures Lines(StationFile(net, busOrder)) ==
      RouteLines(net.subwayRoutes, net.subwayOrder, "Subway") + RouteLines(net.busRoutes, busOrder, "Bus")
  {
    var subway := RouteLines(net.subwayRoutes, net.subwayOrder, "Subway");
    var bus := RouteLines(net.busRoutes, busOrder, "Bus");
    RouteLinesOneLine(net.subwayRoutes, net.subwayOrder, "Subway");
    RouteLinesOneLine(net.busRoutes, busOrder, "Bus");
    LinesUnlines(subway + bus);
  }

  /** Reading the subway lines, then the bus lines, builds both tables. */
  lemma ReadBoth(subwayRoutes: RouteTable, subwayOrder: seq<string>, busRoutes: RouteTable, busOrder: seq<string>)
    requires IsOrderOf(subwayRoutes, subwayOrder) && IsOrderOf(busRoutes, busOrder)
    requires Writable(subwayRoutes) && Writable(busRoutes)
    ensures ReadLines(RouteLines(subwayRoutes, subwayOrder, "Subway") + RouteLines(busRoutes, busOrder, "Bus"), map[], map[]) ==
      Ok((subwayRoutes, busRoutes))
  {
    var subway := RouteLines(subwayRoutes, subwayOrder, "Subway");
    var bus := RouteLines(busRoutes, busOrder, "Bus");
    RouteLinesParse(subwayRoutes, subwayOrder, "Subway");
    RouteLinesParse(busRoutes, busOrder, "Bus");
    PutAllOrder(subwayRoutes, subwayOrder);
    PutAllOrder(busRoutes, busOrder);
    ReadParsed(subway, subwayRoutes, subwayOrder, "Subway", bus, map[], map[]);
    ReadParsed(bus, busRoutes, busOrder, "Bus", [], subwayRoutes, map[]);
    assert bus + [] == bus;
  }

  /**
   * readStations restores both tables from the file saveStations wrote,
   * when every route name and station name is plain and no route is empty.
   */
  lemma StationFileRoundTrip(net: Network, busOrder: seq<string>)
    requires ValidNetwork(net) && IsOrderOf(net.busRoutes, busOrder)
    requires Writable(net.subwayRoutes) && Writable(net.busRoutes)
    ensures ReadLines(Lines(StationFile(net, busOrder)), map[], map[]) == Ok((net.subwayRoutes, net.busRoutes))
  {
    FileLines(net, busOrder);
    ReadBoth(net.subwayRoutes, net.subwayOrder, net.busRoutes, busOrder);
  }

  /** Reading a first line that parses into a route goes on with the route put into its table. */
  lemma ReadFirst(line: string, name: string, kind: string, stations: seq<string>, rest: seq<string>, subway: RouteTable, bus: RouteTable)
    requires Parses(line, name, kind, stations) && (kind == "Subway" || kind == "Bus")
    ensures ReadLines([line] + rest, subway, bus) ==
      if kind == "Subway" then ReadLines(rest, subway[name := stations], bus)
      else ReadLines(rest, subway, bus[name := stations])
  {
    StepParsed(line, name, kind, stations, subway, bus);
    assert ([line] + rest)[0] == line;
    assert ([line] + rest)[1..] == rest;
  }

  /** Reading a single line that parses into a route puts the route into its table. */
  lemma ReadOnly(line: string, name: string, kind: string, stations: seq<string>, subway: RouteTable, bus: RouteTable)
    requires Parses(line, name, kind, stations) && (kind == "Subway" || kind == "Bus")
    ensures ReadLines([line], subway, bus) ==
      if kind == "Subway" then Ok((subway[name := stations], bus)) else Ok((subway, bus[name := stations]))
  {
    ReadFirst(line, name, kind, stations, [], subway, bus);
    assert [line] + [] == [line];
  }

  /** Of two lines for the same route of the same type, the later one is kept. */
  lemma LaterWins(l1: string, l2: string, name: string, kind: string, first: seq<string>, second: seq<string>,
                  subway: RouteTable, bus: RouteTable)
    requires kind == "Subway" || kind == "Bus"
    requires Parses(l1, name, kind, first) && Parses(l2, name, kind, second)
    ensures ReadLines([l1, l2], subway, bus) ==
      if kind == "Subway" then Ok((subway[name := second], bus)) else Ok((subway, bus[name := second]))
  {
    var lines := [l1, l2];
    assert lines == [l1] + [l2];
    ReadFirst(l1, name, kind, first, [l2], subway, bus);
    var (s1, b1) := if kind == "Subway" then (subway[name := first], bus) else (subway, bus[name := first]);
    assert ReadLines(lines, subway, bus) == ReadLines([l2], s1, b1);
    ReadOnly(l2, name, kind, second, s1, b1);
    if kind == "Subway" {
      UpdateTwice(subway, name, first, second);
    } else {
      UpdateTwice(bus, name, first, second);
    }
  }

  /** A later line for a route of the same name and type replaces the earlier one. */
  lemma LaterLineWins(name: string, kind: string, first: seq<string>, second: seq<string>)
    requires PlainName(name) && (kind == "Subway" || kind == "Bus")
    requires |first| >= 1 && PlainStations(first)
    requires |second| >= 1 && PlainStations(second)
    ensures ReadLines([RouteLine(name, kind, first), RouteLine(name, kind, second)], map[], map[]) ==
      if kind == "Subway" then Ok((map[name := second], map[])) else Ok((map[], map[name := second]))
  {
    KindsArePlain();
    RouteLineNotBlank(name, kind, first);
    ParseRouteLine(name, kind, first);
    RouteLineNotBlank(name, kind, second);
    ParseRouteLine(name, kind, second);
    var empty: RouteTable := map[];
    LaterWins(RouteLine(name, kind, first), RouteLine(name, kind, second), name, kind, first, second, empty, empty);
  }

  /** Reading stops at the first blank line: nothing after it is read. */
  lemma {:induction false} BlankLineEnds(lines: seq<string>, i: nat, subway: RouteTable, bus: RouteTable)
    requires i < |lines| && Blank(lines[i])
    ensures ReadLines(lines, subway, bus) == ReadLines(lines[..i + 1], subway, bus)
    decreases i
  {
    if i > 0 && !Blank(lines[0]) {
      assert lines[..i + 1][0] == lines[0];
      assert lines[..i + 1][1..] == lines[1..][..i];
      match Step(lines[0], subway, bus)
      case Err(_) =>
      case Ok(tables) =>
        BlankLineEnds(lines[1..], i - 1, tables.0, tables.1);
    }
  }

  // ---------------------------------------------------------------------------
  // saveFares

  /** Distinct rates have distinct names, so no entry of the saved table overwrites another. */
  lemma NamesDistinct(r: Rate, q: Rate)
    requires r != q
    ensures Name(r) != Name(q)
  {
  }

  /** The loop of saveFares, over rates listed once each: every rate's current value under its name. */
  method SaveRates(fares: FareTable, rs: seq<Rate>) returns (info: map<string, int>)
    requires fares.Valid() && NoDup(rs)
    ensures forall n :: n in info <==> exists k :: 0 <= k < |rs| && n == Name(rs[k])
    ensures forall k :: 0 <= k < |rs| ==> Name(rs[k]) in info && info[Name(rs[k])] == fares.GetFare(rs[k])
  {
    info := map[];
    var i := 0;
    while i < |rs|
      invariant 0 <= i <= |rs|
      invariant forall n :: n in info <==> exists k :: 0 <= k < i && n == Name(rs[k])
      invariant forall k :: 0 <= k < i ==> Name(rs[k]) in info && info[Name(rs[k])] == fares.GetFare(rs[k])
    {
      var fare := rs[i];
      forall k | 0 <= k < i ensures Name(rs[k]) != Name(fare) {
        NamesDistinct(rs[k], fare);
      }
      info := info[Name(fare) := fares.GetFare(fare)];
      i := i + 1;
    }
  }

  /**
   * saveFares: one entry per rate, under its name, holding the rate's
   * current value.
   */
  method SaveFares(fares: FareTable) returns (info: map<string, int>)
    requires fares.Valid()
    ensures info.Keys == set r | r in Rates :: Name(r)
    ensures forall r: Rate :: Name(r) in info && info[Name(r)] == fares.GetFare(r)
  {
    info := SaveRates(fares, Rates);
    forall r: Rate ensures Name(r) in info && info[Name(r)] == fares.GetFare(r) {
      RatesListsEveryRate(r);
      var k :| 0 <= k < |Rates| && Rates[k] == r;
    }
  }
}
