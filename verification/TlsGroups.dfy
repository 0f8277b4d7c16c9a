/**
 The TLS environment values: comma-separated lists of group and cipher-suite names are
 parsed, canonicalised and printed again for the operands, which parse them once more.
 */
module TlsLists {
  import opened Strings

  // ---- Splitting, joining, trimming ----

  /** strings.Split(s, ","): always at least one piece. */
  function Split(s: string): (r: seq<string>)
    ensures |r| > 0
  {
    if s == [] then [""]
    else if s[0] == ',' then [""] + Split(s[1..])
    else
      var rest := Split(s[1..]);
      [[s[0]] + rest[0]] + rest[1..]
  }

  /** strings.Join(names, ","). */
  function Join(names: seq<string>): string {
    if names == [] then ""
    else if |names| == 1 then names[0]
    else names[0] + [','] + Join(names[1..])
  }

  predicate CommaFree(s: string) {
    ',' !in s
  }

  ghost predicate AllCommaFree(names: seq<string>) {
    forall i :: 0 <= i < |names| ==> CommaFree(names[i])
  }

  lemma {:induction false} SplitSingle(s: string)
    requires CommaFree(s)
    ensures Split(s) == [s]
  {
    if s != [] {
      SplitSingle(s[1..]);
      assert [s[0]] + s[1..] == s;
    }
  }

  lemma {:induction false} SplitFirst(s: string, rest: string)
    requires CommaFree(s)
    ensures Split(s + [','] + rest) == [s] + Split(rest)
  {
    var t := s + [','] + rest;
    if s == [] {
      assert t[1..] == rest;
    } else {
      assert t[1..] == s[1..] + [','] + rest;
      SplitFirst(s[1..], rest);
      assert [s[0]] + s[1..] == s;
    }
  }

  /** Splitting undoes joining. */
  lemma {:induction false} SplitJoin(names: seq<string>)
    requires names != [] && AllCommaFree(names)
    ensures Split(Join(names)) == names
  {
    if |names| == 1 {
      SplitSingle(names[0]);
    } else {
      SplitJoin(names[1..]);
      SplitFirst(names[0], Join(names[1..]));
    }
  }

  lemma {:induction false} SplitCommaFree(s: string)
    ensures AllCommaFree(Split(s))
  {
    if s != [] {
      SplitCommaFree(s[1..]);
    }
  }

  function TrimLeft(s: string, space: char -> bool): string {
    if s != [] && space(s[0]) then TrimLeft(s[1..], space) else s
  }

  function TrimRight(s: string, space: char -> bool): string {
    if s != [] && space(s[|s| - 1]) then TrimRight(s[..|s| - 1], space) else s
  }

  /** strings.TrimSpace, for any notion of space. */
  function Trim(s: string, space: char -> bool): string {
    TrimRight(TrimLeft(s, space), space)
  }

  predicate Trimmed(s: string, space: char -> bool) {
    s == [] || (!space(s[0]) && !space(s[|s| - 1]))
  }

  lemma {:induction false} TrimLeftFacts(s: string, space: char -> bool)
    ensures var t := TrimLeft(s, space);
      && (t == [] || !space(t[0])) && (forall c :: c in t ==> c in s)
  {
    if s != [] && space(s[0]) {
      TrimLeftFacts(s[1..], space);
    }
  }

  lemma {:induction false} TrimRightFacts(s: string, space: char -> bool)
    requires s == [] || !space(s[0])
    ensures var t := TrimRight(s, space);
      Trimmed(t, space) && (forall c :: c in t ==> c in s)
    decreases |s|
  {
    if s != [] && space(s[|s| - 1]) {
      TrimRightFacts(s[..|s| - 1], space);
    }
  }

  lemma TrimFacts(s: string, space: char -> bool)
    ensures Trimmed(Trim(s, space), space)
    ensures CommaFree(s) ==> CommaFree(Trim(s, space))
    ensures Trimmed(s, space) ==> Trim(s, space) == s
  {
    TrimLeftFacts(s, space);
    TrimRightFacts(TrimLeft(s, space), space);
  }
}

module TlsGroups {
  import opened Strings
  import opened TlsLists

  /** What the Go toolchain provides: group names, case folding and its notion of space. */
  datatype Toolchain = Toolchain(
    name: int -> string,
    lower: string -> string,
    space: char -> bool,
    aliases: map<string, int>)

  const GROUP_COUNT := 0x1_0000

  /** Unknown ids are named "CurveID(<number>)". */
  predicate Known(t: Toolchain, id: int) {
    0 <= id < GROUP_COUNT && !("CurveID(" <= t.name(id))
  }

  type Table = map<string, int>

  function NamesBelow(t: Toolchain, n: nat): Table {
    if n == 0 then map[]
    else
      var m := NamesBelow(t, n - 1);
      if Known(t, n - 1) then m[t.lower(t.name(n - 1)) := n - 1] else m
  }

  function GroupLookup(t: Toolchain): Table {
    NamesBelow(t, GROUP_COUNT) + t.aliases
  }

  method BuildGroupLookup(t: Toolchain) returns (lookup: Table)
    ensures lookup == GroupLookup(t)
  {
    lookup := map[];
    for id := 0 to GROUP_COUNT
      invariant lookup == NamesBelow(t, id)
    {
      if Known(t, id) {
        lookup := lookup[t.lower(t.name(id)) := id];
      }
    }
    lookup := lookup + t.aliases;
  }

  // ---- Parsing ----

  /** The groups recognised in a list of pieces, first occurrence of each. */
  function Groups(t: Toolchain, lookup: Table, pieces: seq<string>): seq<int>
    decreases |pieces|
  {
    if pieces == [] then []
    else
      var before := Groups(t, lookup, pieces[..|pieces| - 1]);
      var name := Trim(pieces[|pieces| - 1], t.space);
      var key := t.lower(name);
      if name == "" || key !in lookup || lookup[key] in before then before else before + [lookup[key]]
  }

  function Parse(t: Toolchain, lookup: Table, s: string): seq<int> {
    if s == "" then [] else Groups(t, lookup, Split(s))
  }

  function Names(t: Toolchain, ids: seq<int>): seq<string> {
    seq(|ids|, i requires 0 <= i < |ids| => t.name(ids[i]))
  }

  /** parseTLSGroups. */
  method ParseTLSGroups(t: Toolchain, lookup: Table, s: string) returns (groups: seq<int>, names: seq<string>)
    ensures groups == Parse(t, lookup, s) && names == Names(t, groups)
  {
    groups, names := [], [];
    if s == "" {
      return;
    }
    var raw := Split(s);
    var seen: set<int> := {};
    for i := 0 to |raw|
      invariant groups == Groups(t, lookup, raw[..i]) && names == Names(t, groups)
      invariant forall g :: g in seen <==> g in groups
    {
      assert raw[..i + 1][..i] == raw[..i];
      var name := Trim(raw[i], t.space);
      if name == "" {
        continue;
      }
      var key := t.lower(name);
      if key in lookup {
        var g := lookup[key];
        if g in seen {
          continue;
        }
        seen := seen + {g};
        groups := groups + [g];
        names := names + [t.name(g)];
      }
    }
    assert raw[..|raw|] == raw;
  }

  // ---- Printing is undone by parsing ----

  /** A name the list syntax can carry. */
  predicate Printable(t: Toolchain, s: string) {
    s != "" && CommaFree(s) && Trimmed(s, t.space)
  }

  /**
   Names are printable and distinct up to case, and the aliases name known groups without
   shadowing the name of another group.
   */
  ghost predicate WellNamed(t: Toolchain) {
    && (forall id :: Known(t, id) ==> Printable(t, t.name(id)))
    && (forall a, b :: Known(t, a) && Known(t, b) && t.lower(t.name(a)) == t.lower(t.name(b)) ==> a == b)
    && (forall k :: k in t.aliases ==> Known(t, t.aliases[k]))
    && (forall id :: Known(t, id) && t.lower(t.name(id)) in t.aliases ==> t.aliases[t.lower(t.name(id))] == id)
  }

  lemma {:induction false} NamesBelowExact(t: Toolchain, n: nat, id: int)
    requires WellNamed(t) && n <= GROUP_COUNT
    ensures forall k :: k in NamesBelow(t, n) ==> Known(t, NamesBelow(t, n)[k])
    ensures Known(t, id) && id < n ==>
      t.lower(t.name(id)) in NamesBelow(t, n) && NamesBelow(t, n)[t.lower(t.name(id))] == id
    decreases n
  {
    if n > 0 {
      NamesBelowExact(t, n - 1, id);
    }
  }

  /** Every recognised group is found again under its own canonical name. */
  lemma CanonicalNameFound(t: Toolchain, key: string)
    requires WellNamed(t) && key in GroupLookup(t)
    ensures var g := GroupLookup(t)[key];
      && Printable(t, t.name(g))
      && t.lower(t.name(g)) in GroupLookup(t) && GroupLookup(t)[t.lower(t.name(g))] == g
  {
    var g := GroupLookup(t)[key];
    NamesBelowExact(t, GROUP_COUNT, g);
    assert Known(t, g);
  }

  ghost predicate Recognised(t: Toolchain, lookup: Table, ids: seq<int>) {
    && Distinct(ids)
    && forall i :: 0 <= i < |ids| ==> Findable(t, lookup, ids[i])
  }

  ghost predicate Findable(t: Toolchain, lookup: Table, g: int) {
    Printable(t, t.name(g)) && t.lower(t.name(g)) in lookup && lookup[t.lower(t.name(g))] == g
  }

  lemma {:induction false} GroupsRecognised(t: Toolchain, pieces: seq<string>)
    requires WellNamed(t)
    ensures Recognised(t, GroupLookup(t), Groups(t, GroupLookup(t), pieces))
    decreases |pieces|
  {
    if pieces != [] {
      GroupsRecognised(t, pieces[..|pieces| - 1]);
      var key := t.lower(Trim(pieces[|pieces| - 1], t.space));
      if key in GroupLookup(t) {
        CanonicalNameFound(t, key);
      }
    }
  }

  lemma {:induction false} GroupsOfNames(t: Toolchain, lookup: Table, ids: seq<int>)
    requires Recognised(t, lookup, ids)
    ensures Groups(t, lookup, Names(t, ids)) == ids
    decreases |ids|
  {
    if ids != [] {
      var front, last := ids[..|ids| - 1], ids[|ids| - 1];
      GroupsOfNames(t, lookup, front);
      assert Names(t, ids)[..|ids| - 1] == Names(t, front);
      assert Findable(t, lookup, last);
      TrimFacts(t.name(last), t.space);
      assert ids == front + [last];
    }
  }

  /** For every input, parsing the printed names yields the same groups and names in the same order. */
  lemma ReparseStable(t: Toolchain, s: string)
    requires WellNamed(t)
    ensures var groups := Parse(t, GroupLookup(t), s);
      Parse(t, GroupLookup(t), Join(Names(t, groups))) == groups
  {
    var lookup := GroupLookup(t);
    var groups := Parse(t, lookup, s);
    if groups != [] {
      GroupsRecognised(t, Split(s));
      var names := Names(t, groups);
      assert forall i :: 0 <= i < |groups| ==> Findable(t, lookup, groups[i]);
      SplitJoin(names);
      JoinNotEmpty(names);
      GroupsOfNames(t, lookup, groups);
    }
  }

  lemma JoinNotEmpty(names: seq<string>)
    requires names != [] && names[0] != ""
    ensures Join(names) != ""
  {
    if |names| > 1 {
      assert Join(names)[0] == names[0][0];
    }
  }

  // ---- What is recognised ----

  /** The group a piece names: its trimmed text, in any case, is a name or an alias. */
  function Recognise(t: Toolchain, lookup: Table, piece: string): set<int> {
    var name := Trim(piece, t.space);
    if name != "" && t.lower(name) in lookup then {lookup[t.lower(name)]} else {}
  }

  ghost predicate Named(t: Toolchain, lookup: Table, pieces: seq<string>, g: int) {
    exists i :: 0 <= i < |pieces| && g in Recognise(t, lookup, pieces[i])
  }

  lemma NamedSnoc(t: Toolchain, lookup: Table, pieces: seq<string>, g: int)
    requires pieces != []
    ensures Named(t, lookup, pieces, g) <==>
      Named(t, lookup, pieces[..|pieces| - 1], g) || g in Recognise(t, lookup, pieces[|pieces| - 1])
  {
    var front := pieces[..|pieces| - 1];
    if Named(t, lookup, front, g) {
      var i :| 0 <= i < |front| && g in Recognise(t, lookup, front[i]);
      assert pieces[i] == front[i];
    }
    if Named(t, lookup, pieces, g) {
      var i :| 0 <= i < |pieces| && g in Recognise(t, lookup, pieces[i]);
      assert i < |front| ==> front[i] == pieces[i];
    }
  }

  /** Exactly the groups some piece names are returned, each once, and a longer list only adds at the end. */
  lemma {:induction false} GroupsExact(t: Toolchain, lookup: Table, pieces: seq<string>, g: int)
    ensures g in Groups(t, lookup, pieces) <==> Named(t, lookup, pieces, g)
    ensures Distinct(Groups(t, lookup, pieces))
    ensures pieces != [] ==> Groups(t, lookup, pieces[..|pieces| - 1]) <= Groups(t, lookup, pieces)
    decreases |pieces|
  {
    if pieces != [] {
      GroupsExact(t, lookup, pieces[..|pieces| - 1], g);
      NamedSnoc(t, lookup, pieces, g);
    }
  }

  lemma TableHas(t: Toolchain, key: string)
    ensures key in t.aliases ==> key in GroupLookup(t) && GroupLookup(t)[key] == t.aliases[key]
  {
  }

  /** An alias yields its group, in any case and with spaces around it. */
  lemma AliasRecognised(t: Toolchain, piece: string)
    requires Trim(piece, t.space) != "" && t.lower(Trim(piece, t.space)) in t.aliases
    ensures Groups(t, GroupLookup(t), [piece]) == [t.aliases[t.lower(Trim(piece, t.space))]]
  {
    TableHas(t, t.lower(Trim(piece, t.space)));
    assert [piece][..0] == [];
  }

  /** A canonical name yields its group, in any case and with spaces around it. */
  lemma NameRecognised(t: Toolchain, piece: string, id: int)
    requires WellNamed(t) && Known(t, id)
    requires Trim(piece, t.space) != "" && t.lower(Trim(piece, t.space)) == t.lower(t.name(id))
    ensures Groups(t, GroupLookup(t), [piece]) == [id]
  {
    NamesBelowExact(t, GROUP_COUNT, id);
    assert [piece][..0] == [];
  }

  lemma {:induction false} TrimLeftSpaces(before: string, s: string, space: char -> bool)
    requires (forall i :: 0 <= i < |before| ==> space(before[i])) && s != [] && !space(s[0])
    ensures TrimLeft(before + s, space) == s
  {
    if before == [] {
      assert before + s == s;
    } else {
      assert (before + s)[1..] == before[1..] + s;
      TrimLeftSpaces(before[1..], s, space);
    }
  }

  lemma {:induction false} TrimRightSpaces(s: string, after: string, space: char -> bool)
    requires (forall i :: 0 <= i < |after| ==> space(after[i])) && s != [] && !space(s[|s| - 1])
    ensures TrimRight(s + after, space) == s
    decreases |after|
  {
    if after == [] {
      assert s + after == s;
    } else {
      assert (s + after)[..|s + after| - 1] == s + after[..|after| - 1];
      TrimRightSpaces(s, after[..|after| - 1], space);
    }
  }

  /** Trimming removes exactly the spaces around a text. */
  lemma TrimSpaces(before: string, s: string, after: string, space: char -> bool)
    requires forall i :: 0 <= i < |before| ==> space(before[i])
    requires forall i :: 0 <= i < |after| ==> space(after[i])
    requires s != [] && Trimmed(s, space)
    ensures Trim(before + (s + after), space) == s
  {
    TrimLeftSpaces(before, s + after, space);
    TrimRightSpaces(s, after, space);
  }
}

module CipherSuites {
  import opened Strings
  import opened TlsLists

  type Table = map<string, int>

  /** The recognised names in order, repeats kept. */
  function Suites(space: char -> bool, lookup: Table, pieces: seq<string>): seq<string>
    decreases |pieces|
  {
    if pieces == [] then []
    else
      var before := Suites(space, lookup, pieces[..|pieces| - 1]);
      var name := Trim(pieces[|pieces| - 1], space);
      if name in lookup then before + [name] else before
  }

  function Parse(space: char -> bool, lookup: Table, s: string): seq<string> {
    if s == "" then [] else Suites(space, lookup, Split(s))
  }

  /** parseCipherSuites. */
  method ParseCipherSuites(space: char -> bool, lookup: Table, s: string) returns (ids: seq<int>, names: seq<string>)
    ensures names == Parse(space, lookup, s)
    ensures |ids| == |names| && forall i :: 0 <= i < |ids| ==> names[i] in lookup && ids[i] == lookup[names[i]]
  {
    ids, names := [], [];
    if s == "" {
      return;
    }
    var raw := Split(s);
    for i := 0 to |raw|
      invariant names == Suites(space, lookup, raw[..i])
      invariant |ids| == |names| && forall j :: 0 <= j < |ids| ==> names[j] in lookup && ids[j] == lookup[names[j]]
    {
      assert raw[..i + 1][..i] == raw[..i];
      var name := Trim(raw[i], space);
      if name in lookup {
        ids := ids + [lookup[name]];
        names := names + [name];
      }
    }
    assert raw[..|raw|] == raw;
  }

  ghost predicate Carried(space: char -> bool, lookup: Table, names: seq<string>) {
    forall i :: 0 <= i < |names| ==> names[i] in lookup && CommaFree(names[i]) && Trimmed(names[i], space)
  }

  lemma {:induction false} SuitesCarried(space: char -> bool, lookup: Table, pieces: seq<string>)
    requires AllCommaFree(pieces)
    ensures Carried(space, lookup, Suites(space, lookup, pieces))
    decreases |pieces|
  {
    if pieces != [] {
      SuitesCarried(space, lookup, pieces[..|pieces| - 1]);
      TrimFacts(pieces[|pieces| - 1], space);
    }
  }

  lemma {:induction false} SuitesOfNames(space: char -> bool, lookup: Table, names: seq<string>)
    requires Carried(space, lookup, names)
    ensures Suites(space, lookup, names) == names
    decreases |names|
  {
    if names != [] {
      var front, last := names[..|names| - 1], names[|names| - 1];
      SuitesOfNames(space, lookup, front);
      TrimFacts(last, space);
      assert names == front + [last];
    }
  }

  /** Cipher suites survive printing and parsing whatever the table, as long as no suite is nameless. */
  lemma ReparseStable(space: char -> bool, lookup: Table, s: string)
    requires "" !in lookup
    ensures Parse(space, lookup, Join(Parse(space, lookup, s))) == Parse(space, lookup, s)
  {
    var names := Parse(space, lookup, s);
    if names != [] {
      SplitCommaFree(s);
      SuitesCarried(space, lookup, Split(s));
      assert names[0] in lookup;
      SplitJoin(names);
      SuitesOfNames(space, lookup, names);
    }
  }

  ghost predicate Named(space: char -> bool, pieces: seq<string>, name: string) {
    exists i :: 0 <= i < |pieces| && Trim(pieces[i], space) == name
  }

  /** Exactly the known names among the pieces are returned. */
  lemma {:induction false} SuitesExact(space: char -> bool, lookup: Table, pieces: seq<string>, name: string)
    ensures name in Suites(space, lookup, pieces) <==> name in lookup && Named(space, pieces, name)
    decreases |pieces|
  {
    if pieces != [] {
      var front, last := pieces[..|pieces| - 1], pieces[|pieces| - 1];
      SuitesExact(space, lookup, front, name);
      if Named(space, front, name) {
        var i :| 0 <= i < |front| && Trim(front[i], space) == name;
        assert pieces[i] == front[i];
      }
      if Named(space, pieces, name) {
        var i :| 0 <= i < |pieces| && Trim(pieces[i], space) == name;
        assert i < |front| ==> front[i] == pieces[i];
      }
    }
  }
}
