/** Prompt assembly: the placeholder substitution of `format_prompt` and the
    port reference listing interpolated into the prompt. */
module Prompts {
  import opened Builtins
  import opened Sequences
  import opened Schemas

  /** `max_ports` when the caller gives none. */
  const DefaultMaxPorts := 30

  // ---------------------------------------------------------------------------
  // format_prompt
  // ---------------------------------------------------------------------------

  /** A prompt template, already split at its three named placeholders
      `{subject}`, `{body}` and `{port_reference}`. */
  datatype Piece = Text(text: string) | SubjectSlot | BodySlot | PortReferenceSlot

  function Fill(p: Piece, subject: string, body: string, portReference: string): string {
    match p
    case Text(t) => t
    case SubjectSlot => subject
    case BodySlot => body
    case PortReferenceSlot => portReference
  }

  /** `format_prompt`: every placeholder replaced by its value, the text kept. */
  function FormatPrompt(template: seq<Piece>, subject: string, body: string, portReference: string): string {
    if template == [] then ""
    else Fill(template[0], subject, body, portReference) + FormatPrompt(template[1..], subject, body, portReference)
  }

  /** Formatting works piece by piece, so the value of every placeholder the
      template holds appears in the prompt. */
  lemma {:induction false} FormatPromptContains(template: seq<Piece>, subject: string, body: string,
                                                portReference: string, k: nat)
    requires k < |template|
    ensures IsInfix(Fill(template[k], subject, body, portReference),
                    FormatPrompt(template, subject, body, portReference))
  {
    var rest := FormatPrompt(template[1..], subject, body, portReference);
    if k == 0 {
      InfixOfConcat("", Fill(template[0], subject, body, portReference), rest);
      assert "" + Fill(template[0], subject, body, portReference) + rest
          == FormatPrompt(template, subject, body, portReference);
    } else {
      FormatPromptContains(template[1..], subject, body, portReference, k - 1);
      InfixOfSuffix(Fill(template[k], subject, body, portReference), rest,
                    Fill(template[0], subject, body, portReference));
    }
  }

  // ---------------------------------------------------------------------------
  // get_port_reference_text: grouping
  // ---------------------------------------------------------------------------

  function Codes(ports: seq<PortReference>): seq<string> {
    seq(|ports|, i requires 0 <= i < |ports| => ports[i].code)
  }

  /** The names listed under `code`, duplicates included, in input order. */
  function NamesOf(ports: seq<PortReference>, code: string): seq<string> {
    if ports == [] then []
    else
      var last := ports[|ports| - 1];
      NamesOf(ports[..|ports| - 1], code) + (if last.code == code then [last.name] else [])
  }

  /** The `port_map` dictionary after the grouping loop has seen `ports`. */
  function Grouped(ports: seq<PortReference>): map<string, seq<string>> {
    if ports == [] then map[]
    else
      var m := Grouped(ports[..|ports| - 1]);
      var p := ports[|ports| - 1];
      if p.code !in m then m[p.code := [p.name]]
      else if p.name in m[p.code] then m
      else m[p.code := m[p.code] + [p.name]]
  }

  /** The grouping holds one entry per distinct code, and each entry lists the
      distinct names of that code in first-seen order. */
  lemma {:induction false} GroupedSpec(ports: seq<PortReference>)
    ensures forall c :: c in Grouped(ports) <==> c in Codes(ports)
    ensures forall c :: c in Grouped(ports) ==> Grouped(ports)[c] == Dedup(NamesOf(ports, c))
  {
    if ports != [] {
      var prefix := ports[..|ports| - 1];
      var p := ports[|ports| - 1];
      GroupedSpec(prefix);
      assert Codes(ports) == Codes(prefix) + [p.code];
      forall c | c in Grouped(ports) ensures Grouped(ports)[c] == Dedup(NamesOf(ports, c)) {
        if c == p.code {
          assert NamesOf(ports, c) == NamesOf(prefix, c) + [p.name];
          if c !in Grouped(prefix) {
            assert c !in NamesOf(prefix, c) ==> NamesOf(prefix, c) == [] by {
              NamesOfCode(prefix, c);
            }
            NamesOfCode(prefix, c);
            assert Dedup(NamesOf(prefix, c)) == [];
          }
        } else {
          assert NamesOf(ports, c) == NamesOf(prefix, c);
        }
      }
    }
  }

  /** A code with no entry has no names. */
  lemma {:induction false} NamesOfCode(ports: seq<PortReference>, c: string)
    ensures c !in Codes(ports) ==> NamesOf(ports, c) == []
  {
    if ports != [] {
      var prefix := ports[..|ports| - 1];
      assert Codes(ports) == Codes(prefix) + [ports[|ports| - 1].code];
      NamesOfCode(prefix, c);
    }
  }

  /** The keys of `port_map` in insertion order: each distinct code once, where
      it first occurs. */
  function DistinctCodes(ports: seq<PortReference>): seq<string> {
    Dedup(Codes(ports))
  }

  /** One turn of the grouping loop, and the link between the keys of
      `port_map` and their insertion order. */
  lemma GroupingStep(ports: seq<PortReference>, i: nat)
    requires i < |ports|
    ensures var m := Grouped(ports[..i]);
      var p := ports[i];
      Grouped(ports[..i + 1]) ==
        if p.code !in m then m[p.code := [p.name]]
        else if p.name in m[p.code] then m
        else m[p.code := m[p.code] + [p.name]]
    ensures DistinctCodes(ports[..i + 1]) ==
      if ports[i].code in DistinctCodes(ports[..i]) then DistinctCodes(ports[..i])
      else DistinctCodes(ports[..i]) + [ports[i].code]
    ensures forall c :: c in Grouped(ports[..i]) <==> c in DistinctCodes(ports[..i])
  {
    assert ports[..i + 1][..i] == ports[..i];
    assert Codes(ports[..i + 1]) == Codes(ports[..i]) + [ports[i].code];
    assert (Codes(ports[..i]) + [ports[i].code])[..i] == Codes(ports[..i]);
    GroupedSpec(ports[..i]);
  }

  // ---------------------------------------------------------------------------
  // get_port_reference_text: sorting, capping and formatting
  // ---------------------------------------------------------------------------

  predicate StrictlyAscending(s: seq<string>) {
    forall i, j :: 0 <= i < j < |s| ==> Less(s[i], s[j])
  }

  function Insert(x: string, s: seq<string>): (r: seq<string>)
    ensures multiset(r) == multiset(s) + multiset{x}
  {
    if s == [] then [x]
    else if Less(x, s[0]) then [x] + s
    else
      assert s == [s[0]] + s[1..];
      [s[0]] + Insert(x, s[1..])
  }

  /** `sorted` over codes that are all different, where the order is decided
      by the codes alone. */
  function SortCodes(s: seq<string>): (r: seq<string>)
    ensures multiset(r) == multiset(s)
  {
    if s == [] then []
    else
      assert s == [s[0]] + s[1..];
      Insert(s[0], SortCodes(s[1..]))
  }

  lemma {:induction false} InsertAscending(x: string, s: seq<string>)
    requires StrictlyAscending(s) && x !in s
    ensures StrictlyAscending(Insert(x, s))
  {
    if s != [] {
      if Less(x, s[0]) {
        forall j | 0 < j < |s| ensures Less(x, s[j]) {
          LessTransitive(x, s[0], s[j]);
        }
      } else {
        LessTotal(x, s[0]);
        InsertAscending(x, s[1..]);
        var r := Insert(x, s[1..]);
        forall j | 0 <= j < |r| ensures Less(s[0], r[j]) {
          assert r[j] in multiset(r);
          assert r[j] == x || r[j] in s[1..];
        }
      }
    }
  }

  lemma {:induction false} SortAscending(s: seq<string>)
    requires NoDuplicates(s)
    ensures StrictlyAscending(SortCodes(s))
  {
    if s != [] {
      assert NoDuplicates(s[1..]);
      SortAscending(s[1..]);
      assert s[0] !in multiset(SortCodes(s[1..]));
      InsertAscending(s[0], SortCodes(s[1..]));
    }
  }

  /** The end of the slice `[:stop]` over a list of length `n`. */
  function SliceEnd(n: nat, stop: int): (k: nat)
    ensures k <= n
  {
    if stop >= 0 then (if stop < n then stop else n)
    else if n + stop > 0 then n + stop else 0
  }

  /** The codes that get a line: `sorted(port_map.items())[:max_ports]`. */
  function ListedCodes(ports: seq<PortReference>, maxPorts: int): seq<string> {
    var sorted := SortCodes(DistinctCodes(ports));
    sorted[..SliceEnd(|sorted|, maxPorts)]
  }

  /** One line of the listing. */
  function Line(code: string, names: seq<string>): string {
    "- " + code + ": " + Join(names, ", ")
  }

  function LinesFor(codes: seq<string>, groups: map<string, seq<string>>): seq<string>
    requires forall c :: c in codes ==> c in groups
  {
    seq(|codes|, i requires 0 <= i < |codes| => Line(codes[i], groups[codes[i]]))
  }

  /** Every listed code is one of the input codes. */
  lemma ListedAreInputCodes(ports: seq<PortReference>, maxPorts: int)
    ensures forall c :: c in ListedCodes(ports, maxPorts) ==> c in Codes(ports) && c in Grouped(ports)
  {
    var sorted := SortCodes(DistinctCodes(ports));
    GroupedSpec(ports);
    forall c | c in ListedCodes(ports, maxPorts) ensures c in Codes(ports) {
      assert c in sorted;
      assert c in multiset(DistinctCodes(ports));
    }
  }

  /** The lines of the listing. */
  function ReferenceLines(ports: seq<PortReference>, maxPorts: int): seq<string> {
    ListedAreInputCodes(ports, maxPorts);
    LinesFor(ListedCodes(ports, maxPorts), Grouped(ports))
  }

  /** The whole listing: the lines joined by newlines. */
  function PortReferenceText(ports: seq<PortReference>, maxPorts: int): string {
    Join(ReferenceLines(ports, maxPorts), "\n")
  }

  /** `get_port_reference_text(ports, max_ports)`. */
  method GetPortReferenceText(ports: seq<PortReference>, maxPorts: int) returns (text: string)
    ensures text == PortReferenceText(ports, maxPorts)
  {
    var portMap, order := GroupPorts(ports);
    var sorted := SortCodes(order);
    var listed := sorted[..SliceEnd(|sorted|, maxPorts)];
    ListedAreInputCodes(ports, maxPorts);
    var lines := FormatLines(listed, portMap);
    text := Join(lines, "\n");
  }

  /** The grouping loop of `get_port_reference_text`: `port_map` by code,
      each name kept once, and the order in which its keys were inserted. */
  method GroupPorts(ports: seq<PortReference>) returns (portMap: map<string, seq<string>>, order: seq<string>)
    ensures portMap == Grouped(ports)
    ensures order == DistinctCodes(ports)
  {
    portMap := map[];
    order := [];
    for i := 0 to |ports|
      invariant portMap == Grouped(ports[..i])
      invariant order == DistinctCodes(ports[..i])
    {
      var code := ports[i].code;
      var name := ports[i].name;
      GroupingStep(ports, i);
      ghost var before := portMap;
      if code !in portMap {
        portMap := portMap[code := []];
        order := order + [code];
      }
      if name !in portMap[code] {
        portMap := portMap[code := portMap[code] + [name]];
      }
      if code !in before {
        assert [] + [name] == [name];
        assert portMap == before[code := [name]];
      }
    }
    assert ports[..|ports|] == ports;
  }

  /** The formatting loop of `get_port_reference_text`: one line per listed
      code, a single name written as it is. */
  method FormatLines(listed: seq<string>, portMap: map<string, seq<string>>) returns (lines: seq<string>)
    requires forall c :: c in listed ==> c in portMap
    ensures lines == LinesFor(listed, portMap)
  {
    lines := [];
    for k := 0 to |listed|
      invariant lines == LinesFor(listed[..k], portMap)
    {
      var code := listed[k];
      var names := portMap[code];
      if |names| == 1 {
        lines := lines + ["- " + code + ": " + names[0]];
      } else {
        lines := lines + ["- " + code + ": " + Join(names, ", ")];
      }
    }
    assert listed[..|listed|] == listed;
  }

  // ---------------------------------------------------------------------------
  // Properties of the listing
  // ---------------------------------------------------------------------------

  /** The listed codes are distinct input codes in ascending order, there are
      `max_ports` of them or all of them when fewer (a negative `max_ports`
      leaves out that many of the largest), and they are the
      smallest: every input code left out sorts after every listed one. */
  lemma ListedCodesSpec(ports: seq<PortReference>, maxPorts: int)
    ensures StrictlyAscending(ListedCodes(ports, maxPorts))
    ensures forall c :: c in ListedCodes(ports, maxPorts) ==> c in Codes(ports)
    ensures maxPorts >= 0 ==>
              |ListedCodes(ports, maxPorts)| ==
              (if maxPorts < |DistinctCodes(ports)| then maxPorts else |DistinctCodes(ports)|)
    ensures maxPorts < 0 ==>
              |ListedCodes(ports, maxPorts)| ==
              (if |DistinctCodes(ports)| + maxPorts > 0 then |DistinctCodes(ports)| + maxPorts else 0)
    ensures forall c, l ::
              (c in Codes(ports) && c !in ListedCodes(ports, maxPorts) && l in ListedCodes(ports, maxPorts))
              ==> Less(l, c)
  {
    var distinct := DistinctCodes(ports);
    var sorted := SortCodes(distinct);
    var listed := ListedCodes(ports, maxPorts);
    SortAscending(distinct);
    ListedAreInputCodes(ports, maxPorts);
    assert |sorted| == |multiset(sorted)| == |distinct|;
    forall c, l | c in Codes(ports) && c !in listed && l in listed ensures Less(l, c) {
      assert c in multiset(distinct);
      var m :| 0 <= m < |sorted| && sorted[m] == c;
      var j :| 0 <= j < |listed| && listed[j] == l;
      assert m >= |listed|;
    }
  }

  /** Line `i` names the `i`-th listed code and that code's distinct names in
      first-seen order; the one-name and several-name branches agree. */
  lemma ReferenceLinesSpec(ports: seq<PortReference>, maxPorts: int)
    ensures |ReferenceLines(ports, maxPorts)| == |ListedCodes(ports, maxPorts)|
    ensures forall i :: 0 <= i < |ReferenceLines(ports, maxPorts)| ==>
      var code := ListedCodes(ports, maxPorts)[i];
      ReferenceLines(ports, maxPorts)[i] == "- " + code + ": " + Join(Dedup(NamesOf(ports, code)), ", ")
  {
    GroupedSpec(ports);
    ListedAreInputCodes(ports, maxPorts);
  }

  /** With no ports the listing is empty. */
  lemma EmptyListing(maxPorts: int)
    ensures PortReferenceText([], maxPorts) == ""
  {
  }

  /** When there are at most `max_ports` distinct codes, every input code
      appears in the listing. */
  lemma EveryCodeListed(ports: seq<PortReference>, maxPorts: int, i: nat)
    requires i < |ports| && |DistinctCodes(ports)| <= maxPorts
    ensures IsInfix(ports[i].code, PortReferenceText(ports, maxPorts))
  {
    var k := ListedPosition(ports, maxPorts, i);
    LineContainsCode(ports, maxPorts, k);
    JoinContainsPart(ReferenceLines(ports, maxPorts), "\n", k);
    InfixTransitive(ports[i].code, ReferenceLines(ports, maxPorts)[k], PortReferenceText(ports, maxPorts));
  }

  /** Where an input code sits among the listed codes, when none is cut. */
  lemma ListedPosition(ports: seq<PortReference>, maxPorts: int, i: nat) returns (k: nat)
    requires i < |ports| && |DistinctCodes(ports)| <= maxPorts
    ensures k < |ListedCodes(ports, maxPorts)| && ListedCodes(ports, maxPorts)[k] == ports[i].code
  {
    var code := ports[i].code;
    var sorted := SortCodes(DistinctCodes(ports));
    assert |sorted| == |multiset(sorted)| == |DistinctCodes(ports)|;
    assert ListedCodes(ports, maxPorts) == sorted;
    assert Codes(ports)[i] == code;
    assert code in DistinctCodes(ports);
    assert code in multiset(sorted);
    k :| 0 <= k < |sorted| && sorted[k] == code;
  }

  /** A line holds its code. */
  lemma LineContainsCode(ports: seq<PortReference>, maxPorts: int, k: nat)
    requires k < |ListedCodes(ports, maxPorts)|
    ensures k < |ReferenceLines(ports, maxPorts)|
    ensures IsInfix(ListedCodes(ports, maxPorts)[k], ReferenceLines(ports, maxPorts)[k])
  {
    ListedAreInputCodes(ports, maxPorts);
    var code := ListedCodes(ports, maxPorts)[k];
    var names := Join(Grouped(ports)[code], ", ");
    assert ReferenceLines(ports, maxPorts)[k] == "- " + code + ": " + names;
    InfixOfConcat("- ", code, ": " + names);
    assert "- " + code + (": " + names) == "- " + code + ": " + names;
  }

  lemma {:induction false} InfixTransitive(x: string, y: string, z: string)
    requires IsInfix(x, y) && IsInfix(y, z)
    ensures IsInfix(x, z)
    decreases |z|
  {
    if y <= z {
      InfixOfPrefix(x, y, z);
    } else {
      InfixTransitive(x, y, z[1..]);
    }
  }

  lemma {:induction false} InfixOfPrefix(x: string, y: string, z: string)
    requires IsInfix(x, y) && y <= z
    ensures IsInfix(x, z)
    decreases |y|
  {
    if x <= y {
      assert x <= z;
    } else {
      InfixOfPrefix(x, y[1..], z[1..]);
    }
  }

  /** The repository's check: "HKHKG" appears in the listing of two ports. */
  lemma HongKongListed()
    ensures IsInfix("HKHKG", PortReferenceText([PortReference("HKHKG", "Hong Kong"),
                                                PortReference("INMAA", "Chennai")], DefaultMaxPorts))
  {
    var ports := [PortReference("HKHKG", "Hong Kong"), PortReference("INMAA", "Chennai")];
    assert |DistinctCodes(ports)| <= 2 by {
      assert |multiset(DistinctCodes(ports))| <= |multiset(Codes(ports))|
        by { DistinctCodesBound(ports); }
    }
    EveryCodeListed(ports, DefaultMaxPorts, 0);
  }

  lemma DistinctCodesBound(ports: seq<PortReference>)
    ensures |DistinctCodes(ports)| <= |ports|
  {
    DedupBound(Codes(ports));
  }

  lemma {:induction false} DedupBound(s: seq<string>)
    ensures |Dedup(s)| <= |s|
  {
    if s != [] {
      DedupBound(s[..|s| - 1]);
    }
  }
}
