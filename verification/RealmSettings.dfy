/** The settings the realm agent may change, how a request becomes replacements,
    and what a file reports. Floating-point numbers are an abstract type with a
    parser and a printer. */
module RealmSettings {
  import opened Common
  import opened ConfigText
  import opened RealmAgent

  datatype Mapping = Mapping(keys: seq<string>, boolean: bool)

  type Table = map<string, Mapping>

  /** A JSON value: a boolean, a number, or something else. */
  datatype Input<N> = Flag(on: bool) | Rate(x: N) | Junk

  /** A parser, a printer and the real number each value stands for. */
  datatype Numbers<!N> = Numbers(parse: string -> Option<N>, format: N -> string, magnitude: N -> real)

  /** Rates are above 0 and at most 1000. */
  predicate InRange<N>(n: Numbers<N>, x: N) { 0.0 < n.magnitude(x) <= 1000.0 }

  /** What is assumed of the number printer: numbers in range read back as
      themselves and print without blanks, '#' or line breaks. */
  ghost predicate Faithful<N(!new)>(n: Numbers<N>) {
    forall x: N :: InRange(n, x) ==> n.parse(n.format(x)) == Some(x) && PlainValue(n.format(x))
  }

  // ------------------------------------------------------------ the table

  const ALLOWED: Table := map[
    "rate.xp.quest" := Mapping(["Rate.XP.Quest"], false),
    "rate.xp.kill" := Mapping(["Rate.XP.Kill"], false),
    "rate.xp.explore" := Mapping(["Rate.XP.Explore"], false),
    "rate.drop.item" := Mapping(["Rate.Drop.Item.Poor", "Rate.Drop.Item.Normal", "Rate.Drop.Item.Uncommon",
        "Rate.Drop.Item.Rare",
                                 "Rate.Drop.Item.Epic", "Rate.Drop.Item.Legendary", "Rate.Drop.Item.Artifact",
                                 "Rate.Drop.Item.Referenced"], false),
    "rate.reputation" := Mapping(["Rate.Reputation.Gain"], false),
    "rate.honor" := Mapping(["Rate.Honor"], false),
    "rate.profession" := Mapping(["Rate.Skill.Discovery"], false),
    "cross_faction.accounts" := Mapping(["AllowTwoSide.Accounts"], true),
    "cross_faction.calendar" := Mapping(["AllowTwoSide.Interaction.Calendar"], true),
    "cross_faction.channels" := Mapping(["AllowTwoSide.Interaction.Channel"], true),
    "cross_faction.groups" := Mapping(["AllowTwoSide.Interaction.Group"], true),
    "cross_faction.guilds" := Mapping(["AllowTwoSide.Interaction.Guild"], true),
    "cross_faction.auctions" := Mapping(["AllowTwoSide.Interaction.Auction"], true),
    "cross_faction.mail" := Mapping(["AllowTwoSide.Interaction.Mail"], true),
    "cross_faction.who" := Mapping(["AllowTwoSide.Who.List"], true),
    "cross_faction.friends" := Mapping(["AllowTwoSide.Add.Friend"], true),
    "cross_faction.trade" := Mapping(["AllowTwoSide.Trade"], true)]

  /** Every setting has keys, fit to be written, and no key belongs to two. */
  ghost predicate WellKeyed(table: Table) {
    && (forall s :: s in table ==> table[s].keys != [] && forall k :: k in table[s].keys ==> GoodKey(k))
    && (forall s, t, k :: s in table && t in table && k in table[s].keys && k in table[t].keys ==> s == t)
  }

  // ------------------------------------------------------------ values

  function ConfigValue<N>(n: Numbers<N>, raw: Input<N>, boolean: bool): Option<string> {
    if boolean then
      if raw.Flag? then Some(if raw.on then "1" else "0") else None
    else if raw.Rate? && InRange(n, raw.x) then Some(n.format(raw.x))
    else None
  }

  function ReadValueOf<N>(n: Numbers<N>, raw: string, boolean: bool): Option<Input<N>> {
    if boolean then
      if raw == "0" || raw == "1" then Some(Flag(raw == "1")) else None
    else
      match n.parse(raw)
      case None => None
      case Some(x) => Some(Rate(x))
  }

  lemma ValueRoundTrip<N(!new)>(n: Numbers<N>, raw: Input<N>, boolean: bool)
    requires Faithful(n) && ConfigValue(n, raw, boolean).Some?
    ensures var text := ConfigValue(n, raw, boolean).value;
            ReadValueOf(n, text, boolean) == Some(raw) && PlainValue(text)
  {
    assert "0"[0] != '1';
  }

  // ------------------------------------------------------------ requests

  type Request<N> = map<string, Input<N>>

  predicate Acceptable<N>(n: Numbers<N>, table: Table, request: Request<N>) {
    forall s :: s in request ==> s in table && ConfigValue(n, request[s], table[s].boolean).Some?
  }

  /** `v` holds exactly the file keys of the settings `done`, with the requested
      values. */
  ghost predicate PreparedFor<N>(n: Numbers<N>, table: Table, request: Request<N>, done: set<string>, v: Replacements) {
    && done <= request.Keys
    && (forall s :: s in done ==> s in table && ConfigValue(n, request[s], table[s].boolean).Some?)
    && (forall s, k :: s in done && k in table[s].keys ==>
          k in v && Some(v[k]) == ConfigValue(n, request[s], table[s].boolean))
    && (forall k :: k in v ==> Owned(table, done, k))
  }

  /** A whole request turned into replacements. */
  ghost predicate Prepared<N>(n: Numbers<N>, table: Table, request: Request<N>, v: Replacements) {
    PreparedFor(n, table, request, request.Keys, v)
  }

  ghost predicate Owned(table: Table, settings: set<string>, k: string) {
    exists s :: s in settings && s in table && k in table[s].keys
  }

  /** The request's loop: settings in any order, each giving its value to all of
      its file keys. */
  method Validate<N(!new)>(n: Numbers<N>, table: Table, request: Request<N>) returns (v: Option<Replacements>)
    requires WellKeyed(table)
    ensures v.Some? <==> Acceptable(n, table, request)
    ensures v.Some? <==> forall s :: s in request ==>
              && s in table
              && if table[s].boolean then request[s].Flag?
                 else request[s].Rate? && 0.0 < n.magnitude(request[s].x) <= 1000.0
    ensures v.Some? ==> Prepared(n, table, request, v.value)
  {
    AcceptableIs(n, table, request);
    hide ConfigValue, WellKeyed, PreparedFor;
    var validated: Replacements := map[];
    var rest := request.Keys;
    NothingPrepared(n, table, request);
    while rest != {}
      invariant rest <= request.Keys
      invariant PreparedFor(n, table, request, request.Keys - rest, validated)
      decreases rest
    {
      var s :| s in rest;
      if s !in table {
        return None;
      }
      var value := ConfigValue(n, request[s], table[s].boolean);
      if value == None {
        return None;
      }
      var keys := table[s].keys;
      ghost var before := validated;
      for i := 0 to |keys|
        invariant forall k :: k in keys[..i] ==> k in validated && validated[k] == value.value
        invariant forall k :: k in before && k !in keys ==> k in validated && validated[k] == before[k]
        invariant forall k :: k in validated ==> k in before || k in keys
      {
        assert keys[..i + 1] == keys[..i] + [keys[i]];
        validated := validated[keys[i] := value.value];
      }
      assert keys[..|keys|] == keys;
      OneMorePrepared(n, table, request, request.Keys - rest, s, before, validated);
      assert request.Keys - rest + {s} == request.Keys - (rest - {s});
      rest := rest - {s};
    }
    assert request.Keys - rest == request.Keys;
    AllPrepared(n, table, request, validated);
    return Some(validated);
  }

  lemma AcceptableIs<N(!new)>(n: Numbers<N>, table: Table, request: Request<N>)
    ensures Acceptable(n, table, request)
       <==> forall s :: s in request ==>
              && s in table
              && if table[s].boolean then request[s].Flag?
                 else request[s].Rate? && 0.0 < n.magnitude(request[s].x) <= 1000.0
  {
  }

  lemma NothingPrepared<N(!new)>(n: Numbers<N>, table: Table, request: Request<N>)
    ensures PreparedFor(n, table, request, request.Keys - request.Keys, map[])
  {
  }

  /** One more setting: its keys take its value, the others keep theirs. */
  lemma OneMorePrepared<N(!new)>(n: Numbers<N>, table: Table, request: Request<N>, done: set<string>, s: string,
                                 before: Replacements, after: Replacements)
    requires WellKeyed(table) && PreparedFor(n, table, request, done, before) && s in request && s in table
        && s !in done
    requires ConfigValue(n, request[s], table[s].boolean).Some?
    requires var value := ConfigValue(n, request[s], table[s].boolean).value;
             forall k :: k in table[s].keys ==> k in after && after[k] == value
    requires forall k :: k in before && k !in table[s].keys ==> k in after && after[k] == before[k]
    requires forall k :: k in after ==> k in before || k in table[s].keys
    ensures PreparedFor(n, table, request, done + {s}, after)
  {
    hide ConfigValue, GoodKey;
    forall k | k in after ensures Owned(table, done + {s}, k) {
      if k !in table[s].keys {
        assert Owned(table, done, k);
        var t :| t in done && t in table && k in table[t].keys;
        assert t in done + {s};
      }
    }
  }

  lemma AllPrepared<N(!new)>(n: Numbers<N>, table: Table, request: Request<N>, v: Replacements)
    requires PreparedFor(n, table, request, request.Keys, v)
    ensures Prepared(n, table, request, v) && Acceptable(n, table, request)
  {
    hide ConfigValue;
  }

  // ------------------------------------------------------------ reports

  /** What the text of one file key stands for: "1" is true and "0" is false, and
      numbers are what the parser makes of them. */
  predicate Reads<N(==)>(n: Numbers<N>, raw: string, boolean: bool, v: Input<N>) {
    if boolean then (raw == "1" && v == Flag(true)) || (raw == "0" && v == Flag(false))
    else match n.parse(raw) case None => false case Some(x) => v == Rate(x)
  }

  /** Every file key of the setting is there and reads as `v`. */
  ghost predicate AllRead<N>(n: Numbers<N>, m: Mapping, actual: Replacements, v: Input<N>) {
    forall k :: k in m.keys ==> k in actual && Reads(n, actual[k], m.boolean, v)
  }

  /** A key is missing, or its text means nothing, or two keys mean different things. */
  ghost predicate Disagree<N(!new)>(n: Numbers<N>, m: Mapping, actual: Replacements) {
    || (exists k :: k in m.keys && k !in actual)
    || (exists k :: k in m.keys && k in actual && forall v :: !Reads(n, actual[k], m.boolean, v))
    || (exists k, l, v, w :: k in m.keys && l in m.keys && k in actual && l in actual
                             && Reads(n, actual[k], m.boolean, v) && Reads(n, actual[l], m.boolean, w) && v != w)
  }

  lemma ReadsIs<N(!new)>(n: Numbers<N>, raw: string, boolean: bool)
    ensures forall v :: Reads(n, raw, boolean, v) <==> ReadValueOf(n, raw, boolean) == Some(v)
  {
    assert "0"[0] != '1';
  }

  /** A setting reports `v` exactly when all its keys read as `v`, and nothing
      exactly when they do not all read as one value. */
  lemma ReportIs<N(!new)>(n: Numbers<N>, m: Mapping, actual: Replacements)
    requires m.keys != []
    ensures forall v :: Report(n, m, actual) == Some(v) <==> AllRead(n, m, actual, v)
    ensures Report(n, m, actual) == None <==> Disagree(n, m, actual)
  {
    hide Reads, ReadValueOf;
    forall k | k in m.keys && k in actual
      ensures forall v :: Reads(n, actual[k], m.boolean, v) <==> ReadValueOf(n, actual[k], m.boolean) == Some(v)
    {
      ReadsIs(n, actual[k], m.boolean);
    }
    var first := m.keys[0];
    assert first in m.keys;
    if Report(n, m, actual) == None && first in actual && ReadValueOf(n, actual[first], m.boolean).Some? {
      var k :| k in m.keys
          && !(k in actual && ReadValueOf(n, actual[k], m.boolean) == ReadValueOf(n, actual[first], m.boolean));
      if k in actual && ReadValueOf(n, actual[k], m.boolean).Some? {
        assert Reads(n, actual[first], m.boolean, ReadValueOf(n, actual[first], m.boolean).value);
        assert Reads(n, actual[k], m.boolean, ReadValueOf(n, actual[k], m.boolean).value);
      }
    }
  }

  /** The value of one setting: what all of its keys agree on. */
  function Report<N(==)>(n: Numbers<N>, m: Mapping, actual: Replacements): Option<Input<N>> {
    if m.keys == [] || m.keys[0] !in actual then None
    else
      var first := ReadValueOf(n, actual[m.keys[0]], m.boolean);
      if first.Some? && forall k :: k in m.keys ==>
          k in actual && ReadValueOf(n, actual[k], m.boolean) == first then first else None
  }

  function Reported<N(==)>(n: Numbers<N>, table: Table, actual: Replacements): Request<N> {
    map s | s in table && Report(n, table[s], actual).Some? :: Report(n, table[s], actual).value
  }

  /** The parser and the table's nested loops. */
  method Inspect<N(==, !new)>(n: Numbers<N>, table: Table, data: string) returns (values: Request<N>)
    requires WellKeyed(table)
    ensures values == Reported(n, table, Actual(Lines(data)))
    ensures forall s, v ::
              s in values && values[s] == v <==> s in table && AllRead(n, table[s], Actual(Lines(data)), v)
    ensures forall s :: s in values <==> s in table && !Disagree(n, table[s], Actual(Lines(data)))
  {
    hide KeyOf, ValueOf, Lines, ReadValueOf, GoodKey, AllRead, Disagree;
    var actual: Replacements := map[];
    var lines := Lines(data);
    for i := 0 to |lines|
      invariant actual == Actual(lines[..i])
    {
      assert lines[..i + 1][..i] == lines[..i];
      var key := KeyOf(lines[i]);
      if key.Some? {
        actual := actual[key.value := ValueOf(lines[i])];
      }
    }
    assert lines[..|lines|] == lines;
    values := map[];
    var rest := table.Keys;
    while rest != {}
      invariant rest <= table.Keys
      invariant forall s :: s in values <==> s in table && s !in rest && Report(n, table[s], actual).Some?
      invariant forall s :: s in values ==> values[s] == Report(n, table[s], actual).value
      decreases rest
    {
      var s :| s in rest;
      var parsed := AgreedValue(n, table[s], actual);
      if parsed.Some? {
        values := values[s := parsed.value];
      }
      rest := rest - {s};
    }
    ReportedIs(n, table, actual);
  }

  lemma ReportedIs<N(!new)>(n: Numbers<N>, table: Table, actual: Replacements)
    requires WellKeyed(table)
    ensures forall s, v :: (s in Reported(n, table, actual) && Reported(n, table, actual)[s] == v)
                           <==> s in table && AllRead(n, table[s], actual, v)
    ensures forall s :: s in Reported(n, table, actual) <==> s in table && !Disagree(n, table[s], actual)
  {
    hide Report, AllRead, Disagree, GoodKey;
    var reported := Reported(n, table, actual);
    forall s, v ensures (s in reported && reported[s] == v) <==> s in table && AllRead(n, table[s], actual, v) {
      if s in table {
        ReportIs(n, table[s], actual);
        assert Report(n, table[s], actual) == Some(v) <==> AllRead(n, table[s], actual, v);
      }
    }
    forall s ensures s in reported <==> s in table && !Disagree(n, table[s], actual) {
      if s in table { ReportIs(n, table[s], actual); }
    }
  }

  method AgreedValue<N(==, !new)>(n: Numbers<N>, m: Mapping, actual: Replacements) returns (parsed: Option<Input<N>>)
    requires m.keys != []
    ensures parsed == Report(n, m, actual)
    ensures forall v :: parsed == Some(v) <==> AllRead(n, m, actual, v)
    ensures parsed == None <==> Disagree(n, m, actual)
  {
    ReportIs(n, m, actual);
    hide ReadValueOf, AllRead, Disagree;
    parsed := None;
    for i := 0 to |m.keys|
      invariant i > 0 ==> parsed.Some? && forall j :: 0 <= j < i ==>
          m.keys[j] in actual && ReadValueOf(n, actual[m.keys[j]], m.boolean) == parsed
    {
      var key := m.keys[i];
      if key !in actual {
        return None;
      }
      var value := ReadValueOf(n, actual[key], m.boolean);
      if value == None {
        return None;
      }
      if i > 0 && parsed != value {
        return None;
      }
      parsed := value;
    }
  }

  // ------------------------------------------------------------ the law

  lemma PreparedIsGood<N(!new)>(n: Numbers<N>, table: Table, request: Request<N>, v: Replacements)
    requires Faithful(n) && WellKeyed(table) && Prepared(n, table, request, v)
    ensures GoodReplacements(v)
  {
    forall k | k in v ensures GoodKey(k) && PlainValue(v[k]) {
      assert Owned(table, request.Keys, k);
      var s :| s in request.Keys && s in table && k in table[s].keys;
      ValueRoundTrip(n, request[s], table[s].boolean);
    }
  }

  /** A requested setting reports the requested value; the keys of any other
      setting are untouched. */
  lemma ReportAfter<N(!new)>(n: Numbers<N>, table: Table, request: Request<N>, v: Replacements, actual: Replacements,
                      s: string)
    requires Faithful(n) && WellKeyed(table) && Prepared(n, table, request, v) && s in table
    ensures Report(n, table[s], actual + v) == if s in request then Some(request[s]) else Report(n, table[s], actual)
  {
    hide ReadValueOf, ConfigValue, GoodKey, PlainValue;
    if s in request {
      ValueRoundTrip(n, request[s], table[s].boolean);
      assert table[s].keys[0] in table[s].keys;
    } else {
      forall k | k in table[s].keys ensures k !in v { }
    }
  }

  /** Whatever the file held: after a valid request it reports exactly what it
      reported before, overridden by the request. */
  lemma RequestTakesEffect<N(!new)>(n: Numbers<N>, table: Table, request: Request<N>, v: Replacements, data: string)
    requires Faithful(n) && WellKeyed(table) && Prepared(n, table, request, v)
    ensures Reported(n, table, Actual(Lines(Replaced(data, v)))) == Reported(n, table, Actual(Lines(data))) + request
  {
    hide Report, GoodReplacements, Actual, Lines, Replaced, WellKeyed, Faithful;
    PreparedIsGood(n, table, request, v);
    ReplacedReadsBack(data, v);
    var actual := Actual(Lines(data));
    forall s | s in table
      ensures Report(n, table[s], actual + v) == if s in request then Some(request[s]) else Report(n, table[s], actual)
    {
      ReportAfter(n, table, request, v, actual, s);
    }
  }

  // ------------------------------------------------------------ the agent

  class Agent<N(==, !new)> {
    const n: Numbers<N>
    var file: string

    constructor (n: Numbers<N>, file: string)
      ensures this.n == n && this.file == file
    {
      this.n, this.file := n, file;
    }

    ghost function Settings(): Request<N>
      reads this
    {
      Reported(n, ALLOWED, Actual(Lines(file)))
    }

    /** POST /v1/config/apply under the agent's mutex; reading, backing up and
        writing the file can each fail. */
    method Apply(request: Request<N>, readable: bool, backedUp: bool,
                 written: bool) returns (report: Option<Request<N>>)
      requires Faithful(n)
      modifies this`file
      ensures report.Some? <==>
                0 < |request| <= |ALLOWED| && Acceptable(n, ALLOWED, request) && readable && backedUp && written
      ensures report == None ==> file == old(file)
      ensures report.Some? ==> report.value == Settings() == old(Settings()) + request
      ensures report.Some? ==> exists v :: Prepared(n, ALLOWED, request, v) && file == Replaced(old(file), v)
    {
      hide Acceptable, Prepared, Reported, Actual, Lines, Replaced;
      AllowedIsWellKeyed();
      if |request| == 0 || |request| > |ALLOWED| {
        return None;
      }
      var validated := Validate(n, ALLOWED, request);
      if validated == None || !readable || !backedUp {
        return None;
      }
      var updated := ReplaceValues(file, validated.value);
      if !written {
        return None;
      }
      RequestTakesEffect(n, ALLOWED, request, validated.value, file);
      file := updated;
      var values := Inspect(n, ALLOWED, file);
      return Some(values);
    }
  }

  // ------------------------------------------------------------ the table is well keyed

  /** Which setting a file key belongs to. */
  const OWNERS: map<string, string> := map[
    "Rate.XP.Quest" := "rate.xp.quest",
    "Rate.XP.Kill" := "rate.xp.kill",
    "Rate.XP.Explore" := "rate.xp.explore",
    "Rate.Drop.Item.Poor" := "rate.drop.item",
    "Rate.Drop.Item.Normal" := "rate.drop.item",
    "Rate.Drop.Item.Uncommon" := "rate.drop.item",
    "Rate.Drop.Item.Rare" := "rate.drop.item",
    "Rate.Drop.Item.Epic" := "rate.drop.item",
    "Rate.Drop.Item.Legendary" := "rate.drop.item",
    "Rate.Drop.Item.Artifact" := "rate.drop.item",
    "Rate.Drop.Item.Referenced" := "rate.drop.item",
    "Rate.Reputation.Gain" := "rate.reputation",
    "Rate.Honor" := "rate.honor",
    "Rate.Skill.Discovery" := "rate.profession",
    "AllowTwoSide.Accounts" := "cross_faction.accounts",
    "AllowTwoSide.Interaction.Calendar" := "cross_faction.calendar",
    "AllowTwoSide.Interaction.Channel" := "cross_faction.channels",
    "AllowTwoSide.Interaction.Group" := "cross_faction.groups",
    "AllowTwoSide.Interaction.Guild" := "cross_faction.guilds",
    "AllowTwoSide.Interaction.Auction" := "cross_faction.auctions",
    "AllowTwoSide.Interaction.Mail" := "cross_faction.mail",
    "AllowTwoSide.Who.List" := "cross_faction.who",
    "AllowTwoSide.Add.Friend" := "cross_faction.friends",
    "AllowTwoSide.Trade" := "cross_faction.trade"]

  /** A row of the table: its keys are fit to be written and belong to it. */
  ghost predicate Row(table: Table, owners: map<string, string>, s: string) {
    && s in table && table[s].keys != []
    && forall k :: k in table[s].keys ==> GoodKey(k) && k in owners && owners[k] == s
  }

  lemma ListRow(table: Table, owners: map<string, string>, s: string, keys: seq<string>)
    requires s in table && table[s].keys == keys != []
    requires forall i :: 0 <= i < |keys| ==> GoodKey(keys[i]) && keys[i] in owners && owners[keys[i]] == s
    ensures Row(table, owners, s)
  {
    hide GoodKey;
  }

  lemma ExperienceKeys()
    ensures GoodKey("Rate.XP.Quest")
    ensures GoodKey("Rate.XP.Kill")
    ensures GoodKey("Rate.XP.Explore")
  {
  }

  lemma RateKeys()
    ensures GoodKey("Rate.Reputation.Gain")
    ensures GoodKey("Rate.Honor")
    ensures GoodKey("Rate.Skill.Discovery")
  {
  }

  lemma CommonDropKeys()
    ensures GoodKey("Rate.Drop.Item.Poor")
    ensures GoodKey("Rate.Drop.Item.Normal")
    ensures GoodKey("Rate.Drop.Item.Uncommon")
    ensures GoodKey("Rate.Drop.Item.Rare")
  {
  }

  lemma RareDropKeys()
    ensures GoodKey("Rate.Drop.Item.Epic")
    ensures GoodKey("Rate.Drop.Item.Legendary")
    ensures GoodKey("Rate.Drop.Item.Artifact")
    ensures GoodKey("Rate.Drop.Item.Referenced")
  {
  }

  lemma InteractionKeys()
    ensures GoodKey("AllowTwoSide.Interaction.Calendar")
    ensures GoodKey("AllowTwoSide.Interaction.Channel")
    ensures GoodKey("AllowTwoSide.Interaction.Group")
  {
  }

  lemma MoreInteractionKeys()
    ensures GoodKey("AllowTwoSide.Interaction.Guild")
    ensures GoodKey("AllowTwoSide.Interaction.Auction")
    ensures GoodKey("AllowTwoSide.Interaction.Mail")
  {
  }

  lemma FactionKeys()
    ensures GoodKey("AllowTwoSide.Accounts")
    ensures GoodKey("AllowTwoSide.Who.List")
    ensures GoodKey("AllowTwoSide.Add.Friend")
    ensures GoodKey("AllowTwoSide.Trade")
  {
  }

  lemma QuestRow()
    ensures Row(ALLOWED, OWNERS, "rate.xp.quest")
  {
    hide GoodKey, Row;
    ExperienceKeys();
    ListRow(ALLOWED, OWNERS, "rate.xp.quest", ["Rate.XP.Quest"]);
  }

  lemma KillRow()
    ensures Row(ALLOWED, OWNERS, "rate.xp.kill")
  {
    hide GoodKey, Row;
    ExperienceKeys();
    ListRow(ALLOWED, OWNERS, "rate.xp.kill", ["Rate.XP.Kill"]);
  }

  lemma ExploreRow()
    ensures Row(ALLOWED, OWNERS, "rate.xp.explore")
  {
    hide GoodKey, Row;
    ExperienceKeys();
    ListRow(ALLOWED, OWNERS, "rate.xp.explore", ["Rate.XP.Explore"]);
  }

  lemma RateRows()
    ensures Row(ALLOWED, OWNERS, "rate.reputation")
    ensures Row(ALLOWED, OWNERS, "rate.honor")
    ensures Row(ALLOWED, OWNERS, "rate.profession")
  {
    hide GoodKey, Row;
    RateKeys();
    ListRow(ALLOWED, OWNERS, "rate.reputation", ["Rate.Reputation.Gain"]);
    ListRow(ALLOWED, OWNERS, "rate.honor", ["Rate.Honor"]);
    ListRow(ALLOWED, OWNERS, "rate.profession", ["Rate.Skill.Discovery"]);
  }

  lemma DropRows()
    ensures Row(ALLOWED, OWNERS, "rate.drop.item")
  {
    hide GoodKey, Row;
    CommonDropKeys();
    RareDropKeys();
    ListRow(ALLOWED, OWNERS, "rate.drop.item", ALLOWED["rate.drop.item"].keys);
  }

  lemma InteractionRows()
    ensures Row(ALLOWED, OWNERS, "cross_faction.calendar")
    ensures Row(ALLOWED, OWNERS, "cross_faction.channels")
    ensures Row(ALLOWED, OWNERS, "cross_faction.groups")
  {
    hide GoodKey, Row;
    InteractionKeys();
    ListRow(ALLOWED, OWNERS, "cross_faction.calendar", ["AllowTwoSide.Interaction.Calendar"]);
    ListRow(ALLOWED, OWNERS, "cross_faction.channels", ["AllowTwoSide.Interaction.Channel"]);
    ListRow(ALLOWED, OWNERS, "cross_faction.groups", ["AllowTwoSide.Interaction.Group"]);
  }

  lemma MoreInteractionRows()
    ensures Row(ALLOWED, OWNERS, "cross_faction.guilds")
    ensures Row(ALLOWED, OWNERS, "cross_faction.auctions")
    ensures Row(ALLOWED, OWNERS, "cross_faction.mail")
  {
    hide GoodKey, Row;
    MoreInteractionKeys();
    ListRow(ALLOWED, OWNERS, "cross_faction.guilds", ["AllowTwoSide.Interaction.Guild"]);
    ListRow(ALLOWED, OWNERS, "cross_faction.auctions", ["AllowTwoSide.Interaction.Auction"]);
    ListRow(ALLOWED, OWNERS, "cross_faction.mail", ["AllowTwoSide.Interaction.Mail"]);
  }

  lemma FactionRows()
    ensures Row(ALLOWED, OWNERS, "cross_faction.accounts")
    ensures Row(ALLOWED, OWNERS, "cross_faction.who")
    ensures Row(ALLOWED, OWNERS, "cross_faction.friends")
    ensures Row(ALLOWED, OWNERS, "cross_faction.trade")
  {
    hide GoodKey, Row;
    FactionKeys();
    ListRow(ALLOWED, OWNERS, "cross_faction.accounts", ["AllowTwoSide.Accounts"]);
    ListRow(ALLOWED, OWNERS, "cross_faction.who", ["AllowTwoSide.Who.List"]);
    ListRow(ALLOWED, OWNERS, "cross_faction.friends", ["AllowTwoSide.Add.Friend"]);
    ListRow(ALLOWED, OWNERS, "cross_faction.trade", ["AllowTwoSide.Trade"]);
  }

  lemma EveryRow(s: string)
    requires s in ALLOWED
    ensures Row(ALLOWED, OWNERS, s)
  {
    hide Row;
    QuestRow();
    KillRow();
    ExploreRow();
    RateRows();
    DropRows();
    InteractionRows();
    MoreInteractionRows();
    FactionRows();
    assert s in {"rate.xp.quest", "rate.xp.kill", "rate.xp.explore", "rate.drop.item", "rate.reputation",
                 "rate.honor", "rate.profession", "cross_faction.accounts", "cross_faction.calendar",
                 "cross_faction.channels", "cross_faction.groups", "cross_faction.guilds", "cross_faction.auctions",
                 "cross_faction.mail", "cross_faction.who", "cross_faction.friends", "cross_faction.trade"};
  }

  lemma RowsMakeWellKeyed(table: Table, owners: map<string, string>)
    requires forall s :: s in table ==> Row(table, owners, s)
    ensures WellKeyed(table)
  {
    hide GoodKey;
    forall s, t, k | s in table && t in table && k in table[s].keys && k in table[t].keys ensures s == t {
      assert Row(table, owners, s) && Row(table, owners, t);
    }
  }

  lemma AllowedIsWellKeyed()
    ensures WellKeyed(ALLOWED)
  {
    forall s | s in ALLOWED ensures Row(ALLOWED, OWNERS, s) { EveryRow(s); }
    RowsMakeWellKeyed(ALLOWED, OWNERS);
  }
}
