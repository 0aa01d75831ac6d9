/**
 One server's listing: identities for the whole batch or for none of it, and the way back from a
 contributed name to the listed tool.
 */
module ToolProjection {
  import opened Wrappers
  import opened ToolIdentity

  // ------------------------------------------------------------------ batch index

  predicate Clash(a: Identity, b: Identity) {
    a.canonicalId == b.canonicalId || a.registryName == b.registryName
  }

  /** The identity an incoming one collides with: by canonical id first, else by registry name. */
  function Existing(ids: seq<Identity>, incoming: Identity): (e: Option<Identity>)
    ensures e.Some? ==> e.value in ids && Clash(e.value, incoming)
    ensures e.None? ==> forall x :: x in ids ==> !Clash(x, incoming)
  {
    match FindCanonical(ids, incoming.canonicalId)
    case Some(x) => Some(x)
    case None => FindRegistry(ids, incoming.registryName)
  }

  function FindCanonical(ids: seq<Identity>, canonicalId: string): (e: Option<Identity>)
    ensures e.Some? ==> e.value in ids && e.value.canonicalId == canonicalId
    ensures e.None? ==> forall x :: x in ids ==> x.canonicalId != canonicalId
  {
    if ids == [] then None
    else if ids[|ids| - 1].canonicalId == canonicalId then Some(ids[|ids| - 1])
    else FindCanonical(ids[..|ids| - 1], canonicalId)
  }

  function FindRegistry(ids: seq<Identity>, registryName: string): (e: Option<Identity>)
    ensures e.Some? ==> e.value in ids && e.value.registryName == registryName
    ensures e.None? ==> forall x :: x in ids ==> x.registryName != registryName
  {
    if ids == [] then None
    else if ids[|ids| - 1].registryName == registryName then Some(ids[|ids| - 1])
    else FindRegistry(ids[..|ids| - 1], registryName)
  }

  /** The identities in input order, or the first failure. */
  function Index(inputs: seq<Input>): Result<seq<Identity>, Error> {
    if inputs == [] then Ok([])
    else
      match Index(inputs[..|inputs| - 1])
      case Err(e) => Err(e)
      case Ok(ids) =>
        match Build(inputs[|inputs| - 1])
        case Err(e) => Err(e)
        case Ok(identity) =>
          match Existing(ids, identity)
          case Some(existing) => Err(Collision(identity, existing))
          case None => Ok(ids + [identity])
  }

  ghost predicate Holds(byCanonical: map<string, Identity>, byRegistry: map<string, Identity>, ids: seq<Identity>) {
    && (forall k :: k in byCanonical ==> FindCanonical(ids, k) == Some(byCanonical[k]))
    && (forall k :: k !in byCanonical ==> FindCanonical(ids, k) == None)
    && (forall k :: k in byRegistry ==> FindRegistry(ids, k) == Some(byRegistry[k]))
    && (forall k :: k !in byRegistry ==> FindRegistry(ids, k) == None)
  }

  lemma HoldsNext(byCanonical: map<string, Identity>, byRegistry: map<string, Identity>, ids: seq<Identity>, identity: Identity)
    requires Holds(byCanonical, byRegistry, ids)
    ensures Holds(byCanonical[identity.canonicalId := identity], byRegistry[identity.registryName := identity], ids + [identity])
  {
    assert (ids + [identity])[..|ids|] == ids;
  }

  /** `order` is the map's own insertion order. */
  method BuildIndex(inputs: seq<Input>) returns (outcome: Result<seq<Identity>, Error>)
    ensures outcome == Index(inputs)
  {
    var index: map<string, Identity>, byRegistryName: map<string, Identity> := map[], map[];
    var order: seq<Identity> := [];
    for i := 0 to |inputs|
      invariant Index(inputs[..i]) == Ok(order) && Holds(index, byRegistryName, order)
    {
      assert inputs[..i + 1][..i] == inputs[..i];
      FailsOn(inputs, i + 1);
      var built := Build(inputs[i]);
      if built.Err? { return Err(built.error); }
      var identity := built.value;
      if identity.canonicalId in index { return Err(Collision(identity, index[identity.canonicalId])); }
      if identity.registryName in byRegistryName { return Err(Collision(identity, byRegistryName[identity.registryName])); }
      HoldsNext(index, byRegistryName, order, identity);
      index := index[identity.canonicalId := identity];
      byRegistryName := byRegistryName[identity.registryName := identity];
      order := order + [identity];
    }
    assert inputs[..|inputs|] == inputs;
    return Ok(order);
  }

  /** A failure on some first inputs is the failure of them all. */
  lemma {:induction false} FailsOn(inputs: seq<Input>, n: nat)
    requires n <= |inputs|
    ensures Index(inputs[..n]).Err? ==> Index(inputs) == Index(inputs[..n])
    decreases |inputs| - n
  {
    if n == |inputs| {
      assert inputs[..n] == inputs;
    } else {
      assert inputs[..n + 1][..n] == inputs[..n];
      FailsOn(inputs, n + 1);
    }
  }

  ghost predicate Injective(ids: seq<Identity>) {
    forall i, j :: 0 <= i < j < |ids| ==> !Clash(ids[i], ids[j])
  }

  predicate Aligned(inputs: seq<Input>, ids: seq<Identity>) {
    |ids| == |inputs| && forall i :: 0 <= i < |ids| ==> Build(inputs[i]) == Ok(ids[i])
  }

  lemma Extended(ids: seq<Identity>, id: Identity)
    ensures Injective(ids + [id]) <==> Injective(ids) && Existing(ids, id) == None
  {
    var longer := ids + [id];
    if Injective(longer) {
      assert forall i, j :: 0 <= i < j < |ids| ==> longer[i] == ids[i] && longer[j] == ids[j];
      forall x | x in ids ensures !Clash(x, id) {
        var i :| 0 <= i < |ids| && ids[i] == x;
        assert !Clash(longer[i], longer[|ids|]);
      }
    }
  }

  lemma {:induction false} IndexGives(inputs: seq<Input>)
    ensures Index(inputs).Ok? ==> Aligned(inputs, Index(inputs).value) && Injective(Index(inputs).value)
  {
    if inputs != [] && Index(inputs).Ok? {
      var n := |inputs| - 1;
      IndexGives(inputs[..n]);
      Extended(Index(inputs[..n]).value, Build(inputs[n]).value);
    }
  }

  lemma IndexStep(inputs: seq<Input>, ids: seq<Identity>, id: Identity)
    requires inputs != [] && Index(inputs[..|inputs| - 1]) == Ok(ids)
    requires Build(inputs[|inputs| - 1]) == Ok(id) && Existing(ids, id) == None
    ensures Index(inputs) == Ok(ids + [id])
  {
  }

  lemma {:induction false} IndexFinds(inputs: seq<Input>, ids: seq<Identity>)
    requires Aligned(inputs, ids) && Injective(ids)
    ensures Index(inputs) == Ok(ids)
  {
    if inputs != [] {
      var n := |inputs| - 1;
      assert ids == ids[..n] + [ids[n]];
      Extended(ids[..n], ids[n]);
      IndexFinds(inputs[..n], ids[..n]);
      IndexStep(inputs, ids[..n], ids[n]);
    }
  }

  /**
   A batch succeeds exactly if every tool has an identity and no two of them share a canonical id
   or a registry name; the identities then are those of the inputs, position by position.
   */
  lemma IndexIs(inputs: seq<Input>)
    ensures Index(inputs).Ok? ==> Aligned(inputs, Index(inputs).value) && Injective(Index(inputs).value)
    ensures forall ids :: Aligned(inputs, ids) && Injective(ids) ==> Index(inputs) == Ok(ids)
  {
    IndexGives(inputs);
    forall ids | Aligned(inputs, ids) && Injective(ids) ensures Index(inputs) == Ok(ids) {
      IndexFinds(inputs, ids);
    }
  }

  // -------------------------------------------------------------------- projection

  datatype Listed = Listed(name: string, description: Option<string>, inputSchema: Option<string>, readOnlyHint: Option<bool>)

  datatype Effect = Read | Write

  datatype Descriptor = Descriptor(identity: Identity, description: string, inputSchema: string, effect: Effect)

  const EMPTY_INPUT_SCHEMA := "{\"type\":\"object\",\"properties\":{}}"

  function InputFor(serverAlias: string, aliases: map<string, string>, tool: Listed): Input {
    Input(serverAlias, tool.name, if tool.name in aliases then Some(aliases[tool.name]) else None)
  }

  function InputsFor(serverAlias: string, aliases: map<string, string>, tools: seq<Listed>): (inputs: seq<Input>)
    ensures |inputs| == |tools| && forall i :: 0 <= i < |tools| ==> inputs[i] == InputFor(serverAlias, aliases, tools[i])
  {
    seq(|tools|, i requires 0 <= i < |tools| => InputFor(serverAlias, aliases, tools[i]))
  }

  function Describe(serverAlias: string, tool: Listed, identity: Identity): Descriptor {
    Descriptor(identity, tool.description.GetOr("MCP tool " + tool.name + " from " + serverAlias),
               tool.inputSchema.GetOr(EMPTY_INPUT_SCHEMA), if tool.readOnlyHint == Some(true) then Read else Write)
  }

  /** The identities are zipped with the listing by position. */
  function ProjectTools(serverAlias: string, aliases: map<string, string>, tools: seq<Listed>): Result<seq<Descriptor>, Error> {
    match Index(InputsFor(serverAlias, aliases, tools))
    case Err(e) => Err(e)
    case Ok(ids) =>
      if |ids| < |tools| then Err(InvalidToolName)
      else Ok(seq(|tools|, i requires 0 <= i < |tools| => Describe(serverAlias, tools[i], ids[i])))
  }

  /** Each listed tool gets its own descriptor; no listing ends in the missing-identity error. */
  lemma ProjectionIsPositional(serverAlias: string, aliases: map<string, string>, tools: seq<Listed>)
    ensures var p := ProjectTools(serverAlias, aliases, tools);
            && (p.Ok? <==> Index(InputsFor(serverAlias, aliases, tools)).Ok?)
            && (p.Ok? ==> |p.value| == |tools| && forall i :: 0 <= i < |tools| ==>
                  && p.value[i].identity.toolName == tools[i].name
                  && p.value[i].identity.effectiveToolName == EffectiveName(InputFor(serverAlias, aliases, tools[i]))
                  && p.value[i].identity.serverAlias == Trim(serverAlias)
                  && (p.value[i].effect == Read <==> tools[i].readOnlyHint == Some(true)))
            && (p.Ok? ==> forall i, j :: 0 <= i < j < |tools| ==>
                  !Clash(p.value[i].identity, p.value[j].identity)
                  && p.value[i].identity.effectiveToolName != p.value[j].identity.effectiveToolName)
  {
    var inputs := InputsFor(serverAlias, aliases, tools);
    IndexIs(inputs);
    if Index(inputs).Ok? {
      var ids := Index(inputs).value;
      forall i | 0 <= i < |tools| { BuildIs(inputs[i]); }
    }
  }

  // ---------------------------------------------------------------------- way back

  /** Effective name to server name; None if two tools are renamed to one. */
  function Reverse(entries: seq<(string, string)>): Option<map<string, string>> {
    if entries == [] then Some(map[])
    else
      match Reverse(entries[..|entries| - 1])
      case None => None
      case Some(reverse) =>
        var (name, renamed) := entries[|entries| - 1];
        if renamed in reverse then None else Some(reverse[renamed := name])
  }

  method BuildReverseToolAliases(entries: seq<(string, string)>) returns (reverse: Option<map<string, string>>)
    ensures reverse == Reverse(entries)
  {
    var out: map<string, string> := map[];
    for i := 0 to |entries|
      invariant Reverse(entries[..i]) == Some(out)
    {
      assert entries[..i + 1][..i] == entries[..i];
      ClashesOn(entries, i + 1);
      var (name, renamed) := entries[i];
      if renamed in out { return None; }
      out := out[renamed := name];
    }
    assert entries[..|entries|] == entries;
    return Some(out);
  }

  lemma {:induction false} ClashesOn(entries: seq<(string, string)>, n: nat)
    requires n <= |entries|
    ensures Reverse(entries[..n]).None? ==> Reverse(entries).None?
    decreases |entries| - n
  {
    if n == |entries| {
      assert entries[..n] == entries;
    } else {
      assert entries[..n + 1][..n] == entries[..n];
      ClashesOn(entries, n + 1);
    }
  }

  /** The entries of a record: each name once, with what it is renamed to. */
  ghost predicate EntriesOf(entries: seq<(string, string)>, aliases: map<string, string>) {
    && (forall i :: 0 <= i < |entries| ==> entries[i].0 in aliases && aliases[entries[i].0] == entries[i].1)
    && (forall name :: name in aliases ==> (name, aliases[name]) in entries)
  }

  lemma {:induction false} ReverseIs(entries: seq<(string, string)>)
    requires Reverse(entries).Some?
    ensures forall renamed :: renamed in Reverse(entries).value <==> exists name :: (name, renamed) in entries
    ensures forall name, renamed :: (name, renamed) in entries ==> renamed in Reverse(entries).value && Reverse(entries).value[renamed] == name
  {
    if entries != [] {
      var front, last := entries[..|entries| - 1], entries[|entries| - 1];
      ReverseIs(front);
      assert entries == front + [last];
      forall renamed | renamed in Reverse(entries).value ensures exists name :: (name, renamed) in entries {
        if renamed == last.1 {
          assert (last.0, renamed) in entries;
        } else {
          var name :| (name, renamed) in front;
          assert (name, renamed) in entries;
        }
      }
    }
  }

  /** What a call by an effective name is sent to. */
  function Resolve(reverse: map<string, string>, effective: string): string {
    if effective in reverse then reverse[effective] else effective
  }

  /** Some tool outside the listing is renamed to this one's name. */
  ghost predicate Shadowed(aliases: map<string, string>, tools: seq<Listed>, name: string) {
    exists other :: other in aliases && aliases[other] == name && other != name && forall t :: t in tools ==> t.name != other
  }

  /**
   A contributed name resolves to the tool it was contributed for, unless that tool keeps its name
   and a tool that the server does not list is renamed to it. Renames of listed tools never do
   harm: the batch would not have been contributed.
   */
  lemma ResolvesIff(serverAlias: string, aliases: map<string, string>, entries: seq<(string, string)>, tools: seq<Listed>, i: nat)
    requires EntriesOf(entries, aliases) && Reverse(entries).Some?
    requires ProjectTools(serverAlias, aliases, tools).Ok? && i < |tools|
    ensures var d := ProjectTools(serverAlias, aliases, tools).value;
            && i < |d|
            && (Resolve(Reverse(entries).value, d[i].identity.effectiveToolName) == tools[i].name
                <==> tools[i].name in aliases || !Shadowed(aliases, tools, tools[i].name))
  {
    ReverseIs(entries);
    ProjectionIsPositional(serverAlias, aliases, tools);
    var d, reverse, name := ProjectTools(serverAlias, aliases, tools).value, Reverse(entries).value, tools[i].name;
    if name in aliases {
      assert (name, aliases[name]) in entries;
    } else if name in reverse {
      var other :| (other, name) in entries;
      assert other in aliases && aliases[other] == name && reverse[name] == other;
      forall j | 0 <= j < |tools| ensures tools[j].name != other {
        assert j != i ==> d[j].identity.effectiveToolName != d[i].identity.effectiveToolName;
      }
      assert Shadowed(aliases, tools, name);
    } else {
      assert forall other :: other in aliases ==> (other, aliases[other]) in entries;
    }
  }

  /** So if every renamed tool is listed, every contributed name finds its tool. */
  lemma ResolvesListed(serverAlias: string, aliases: map<string, string>, entries: seq<(string, string)>, tools: seq<Listed>, i: nat)
    requires EntriesOf(entries, aliases) && Reverse(entries).Some?
    requires ProjectTools(serverAlias, aliases, tools).Ok? && i < |tools|
    requires forall name :: name in aliases ==> exists t :: t in tools && t.name == name
    ensures var d := ProjectTools(serverAlias, aliases, tools).value;
            i < |d| && Resolve(Reverse(entries).value, d[i].identity.effectiveToolName) == tools[i].name
  {
    ResolvesIff(serverAlias, aliases, entries, tools, i);
  }
}
