/**
 The agents an apply request names: every agent id some auth token declares, with that token's
 credential key, refused when two tokens claim one agent.
 */
module ApplyAgents {

  // ---------------------------------------------------------------------------------------
  // Tokens and their credential keys
  // ---------------------------------------------------------------------------------------

  predicate IsSpace(c: char) {
    var n := c as int;
    || 9 <= n <= 13 || n == 32 || n == 0x85 || n == 0xA0 || n == 0x1680 || 0x2000 <= n <= 0x200A
    || n == 0x2028 || n == 0x2029 || n == 0x202F || n == 0x205F || n == 0x3000
  }

  function TrimSpace(s: string): (r: string) {
    if s == "" then ""
    else if IsSpace(s[0]) then TrimSpace(s[1..])
    else if IsSpace(s[|s| - 1]) then TrimSpace(s[..|s| - 1])
    else s
  }

  datatype TokenConfig = TokenConfig(id: string, value: string, network: string, scopes: seq<string>,
                                     agents: seq<string>)

  /** The id a token goes by. `hashed` stands for the truncated hash that names a token without an
      id of its own. */
  function TokenConfigID(token: TokenConfig, hashed: string -> string): (id: string) {
    if TrimSpace(token.id) != "" then TrimSpace(token.id) else "tok_" + hashed(TrimSpace(token.value))
  }

  function CredentialKey(token: TokenConfig, hashed: string -> string): (key: string) {
    "token:" + TrimSpace(TokenConfigID(token, hashed))
  }

  // ---------------------------------------------------------------------------------------
  // What the tokens declare
  // ---------------------------------------------------------------------------------------

  datatype Agent = Agent(id: string, key: string)

  datatype Result = Agents(agents: seq<Agent>) | Conflict

  /** One declaration, unless the id is blank. */
  function Declared(agentID: string, key: string): (ds: seq<Agent>) {
    if TrimSpace(agentID) == "" then [] else [Agent(TrimSpace(agentID), TrimSpace(key))]
  }

  function DeclaredBy(agentIDs: seq<string>, key: string): (ds: seq<Agent>) {
    if agentIDs == [] then []
    else DeclaredBy(agentIDs[..|agentIDs| - 1], key) + Declared(agentIDs[|agentIDs| - 1], key)
  }

  /** All declarations, in document order. */
  function Declarations(tokens: seq<TokenConfig>, hashed: string -> string): (ds: seq<Agent>) {
    if tokens == [] then []
    else
      var last := tokens[|tokens| - 1];
      Declarations(tokens[..|tokens| - 1], hashed) + DeclaredBy(last.agents, CredentialKey(last, hashed))
  }

  /** Some agent is declared under two different keys. */
  predicate Conflicting(ds: seq<Agent>) {
    exists i, j | 0 <= i < |ds| && 0 <= j < |ds| :: ds[i].id == ds[j].id && ds[i].key != ds[j].key
  }

  predicate Declares(ds: seq<Agent>, id: string) {
    exists i | 0 <= i < |ds| :: ds[i].id == id
  }

  /** The index of an id's first declaration, or `|ds|`. */
  function FirstAt(ds: seq<Agent>, id: string): (i: nat)
    ensures i <= |ds|
    ensures i < |ds| ==> ds[i].id == id
    ensures forall k | 0 <= k < i :: ds[k].id != id
  {
    if ds == [] then 0 else if ds[0].id == id then 0 else 1 + FirstAt(ds[1..], id)
  }

  /** The first declaration of each id. */
  function FirstOnly(ds: seq<Agent>): (agents: seq<Agent>) {
    if ds == [] then []
    else
      var n := |ds| - 1;
      FirstOnly(ds[..n]) + if Declares(ds[..n], ds[n].id) then [] else [ds[n]]
  }

  /** What an apply request carries. */
  function Merged(ds: seq<Agent>): (r: Result) {
    if Conflicting(ds) then Conflict else Agents(FirstOnly(ds))
  }

  lemma FirstOnlyOfSnoc(ds: seq<Agent>, d: Agent)
    ensures FirstOnly(ds + [d]) == FirstOnly(ds) + if Declares(ds, d.id) then [] else [d]
  {
    assert (ds + [d])[..|ds|] == ds;
  }

  lemma {:induction false} FirstAtOfSnoc(ds: seq<Agent>, d: Agent, id: string)
    ensures FirstAt(ds, id) < |ds| ==> FirstAt(ds + [d], id) == FirstAt(ds, id)
    ensures FirstAt(ds, id) == |ds| && d.id == id ==> FirstAt(ds + [d], id) == |ds|
    decreases |ds|
  {
    if ds != [] {
      assert (ds + [d])[1..] == ds[1..] + [d];
      FirstAtOfSnoc(ds[1..], d, id);
    }
  }

  /** The list has first declarations only, in their order. */
  predicate InFirstOrder(agents: seq<Agent>, ds: seq<Agent>) {
    && (forall a | 0 <= a < |agents| :: FirstAt(ds, agents[a].id) < |ds| && ds[FirstAt(ds, agents[a].id)] == agents[a])
    && (forall a, b | 0 <= a < b < |agents| :: FirstAt(ds, agents[a].id) < FirstAt(ds, agents[b].id))
  }

  lemma {:induction false} FirstOnlyInOrder(ds: seq<Agent>)
    ensures InFirstOrder(FirstOnly(ds), ds)
    decreases |ds|
  {
    if ds != [] {
      var n := |ds| - 1;
      var before, d := ds[..n], ds[n];
      FirstOnlyInOrder(before);
      assert ds == before + [d];
      FirstOnlyOfSnoc(before, d);
      var agents := FirstOnly(before);
      forall a | 0 <= a < |agents| ensures FirstAt(ds, agents[a].id) == FirstAt(before, agents[a].id) < n {
        FirstAtOfSnoc(before, d, agents[a].id);
      }
      FirstAtOfSnoc(before, d, d.id);
    }
  }

  /** Every declared id is in the list. */
  lemma {:induction false} FirstOnlyCovers(ds: seq<Agent>, i: nat) returns (a: nat)
    requires i < |ds|
    ensures a < |FirstOnly(ds)| && FirstOnly(ds)[a].id == ds[i].id
    decreases |ds|
  {
    var n := |ds| - 1;
    if i < n {
      a := FirstOnlyCovers(ds[..n], i);
    } else if Declares(ds[..n], ds[n].id) {
      var k :| 0 <= k < n && ds[..n][k].id == ds[n].id;
      a := FirstOnlyCovers(ds[..n], k);
    } else {
      a := |FirstOnly(ds[..n])|;
    }
  }

  /** An accepted merge lists every declaration, each id once, in the order of first declarations. */
  lemma MergeIsExact(ds: seq<Agent>)
    requires Merged(ds).Agents?
    ensures var agents := Merged(ds).agents;
            && InFirstOrder(agents, ds)
            && (forall a, b | 0 <= a < |agents| && 0 <= b < |agents| && agents[a].id == agents[b].id :: a == b)
            && (forall i | 0 <= i < |ds| :: ds[i] in agents)
  {
    var agents := FirstOnly(ds);
    FirstOnlyInOrder(ds);
    forall i | 0 <= i < |ds| ensures ds[i] in agents {
      var a := FirstOnlyCovers(ds, i);
      assert ds[FirstAt(ds, agents[a].id)] == agents[a];
    }
  }

  // ---------------------------------------------------------------------------------------
  // The merge
  // ---------------------------------------------------------------------------------------

  /** The side map holds every declaration, and nothing else. */
  ghost predicate Keyed(credentials: map<string, string>, ds: seq<Agent>) {
    && (forall i | 0 <= i < |ds| :: ds[i].id in credentials && credentials[ds[i].id] == ds[i].key)
    && (forall id | id in credentials :: Declares(ds, id))
  }

  /** The side map and the list say the same. */
  lemma MapAgreesWithList(credentials: map<string, string>, ds: seq<Agent>)
    requires Keyed(credentials, ds)
    ensures !Conflicting(ds)
    ensures forall a :: a in FirstOnly(ds) <==> a.id in credentials && credentials[a.id] == a.key
  {
    MergeIsExact(ds);
    forall a ensures a in FirstOnly(ds) <==> a.id in credentials && credentials[a.id] == a.key {
      if a in FirstOnly(ds) {
        assert ds[FirstAt(ds, a.id)] == a;
      }
      if a.id in credentials && credentials[a.id] == a.key {
        var i :| 0 <= i < |ds| && ds[i].id == a.id;
        assert ds[i] == a;
      }
    }
  }

  lemma KeyedNext(credentials: map<string, string>, ds: seq<Agent>, d: Agent)
    requires Keyed(credentials, ds)
    requires d.id in credentials ==> credentials[d.id] == d.key
    ensures Keyed(credentials[d.id := d.key], ds + [d])
  {
    var next, all := credentials[d.id := d.key], ds + [d];
    forall id | id in next ensures Declares(all, id) {
      if id == d.id {
        assert all[|ds|].id == id;
      } else {
        var i :| 0 <= i < |ds| && ds[i].id == id;
        assert all[i].id == id;
      }
    }
  }

  lemma ConflictNext(credentials: map<string, string>, ds: seq<Agent>, d: Agent)
    requires Keyed(credentials, ds) && d.id in credentials && credentials[d.id] != d.key
    ensures Conflicting(ds + [d])
  {
    var i :| 0 <= i < |ds| && ds[i].id == d.id;
    assert (ds + [d])[i] == ds[i] && (ds + [d])[|ds|] == d;
  }

  lemma ConflictStays(ds: seq<Agent>, more: seq<Agent>)
    requires Conflicting(ds)
    ensures Conflicting(ds + more)
  {
    var i, j :| 0 <= i < |ds| && 0 <= j < |ds| && ds[i].id == ds[j].id && ds[i].key != ds[j].key;
    assert (ds + more)[i] == ds[i] && (ds + more)[j] == ds[j];
  }

  /** The list and the side map that `appendApplyAgent` changes through its arguments. */
  class AgentList {
    var agents: seq<Agent>
    var credentials: map<string, string>
    /** The declarations taken so far. */
    ghost var seen: seq<Agent>

    ghost predicate Valid()
      reads this
    {
      agents == FirstOnly(seen) && Keyed(credentials, seen)
    }

    constructor ()
      ensures Valid() && seen == []
    {
      agents, credentials, seen := [], map[], [];
    }

    /** `appendApplyAgent`: refused exactly when the id was declared under another key. */
    method Append(agentID: string, credentialKey: string) returns (ok: bool)
      requires Valid()
      modifies this
      ensures ok <==> !Conflicting(old(seen) + Declared(agentID, credentialKey))
      ensures ok ==> Valid() && seen == old(seen) + Declared(agentID, credentialKey)
      ensures !ok ==> agents == old(agents) && credentials == old(credentials) && seen == old(seen)
    {
      var id := TrimSpace(agentID);
      var key := TrimSpace(credentialKey);
      if id == "" {
        assert seen + [] == seen;
        MapAgreesWithList(credentials, seen);
        return true;
      }
      ghost var d := Agent(id, key);
      FirstOnlyOfSnoc(seen, d);
      if id in credentials {
        if credentials[id] != key {
          ConflictNext(credentials, seen, d);
          return false;
        }
        assert credentials[id := key] == credentials;
        KeyedNext(credentials, seen, d);
        seen := seen + [d];
        MapAgreesWithList(credentials, seen);
        return true;
      }
      assert !Declares(seen, id);
      KeyedNext(credentials, seen, d);
      credentials := credentials[id := key];
      agents := agents + [Agent(id, key)];
      seen := seen + [d];
      MapAgreesWithList(credentials, seen);
      return true;
    }

    /** One token's agents, in order, up to the first refusal. */
    method AppendAll(agentIDs: seq<string>, credentialKey: string) returns (ok: bool)
      requires Valid()
      modifies this
      ensures ok <==> !Conflicting(old(seen) + DeclaredBy(agentIDs, credentialKey))
      ensures ok ==> Valid() && seen == old(seen) + DeclaredBy(agentIDs, credentialKey)
    {
      ghost var before := seen;
      for i := 0 to |agentIDs|
        invariant Valid() && seen == before + DeclaredBy(agentIDs[..i], credentialKey)
      {
        DeclaredNext(before, agentIDs, credentialKey, i);
        ok := Append(agentIDs[i], credentialKey);
        if !ok {
          DeclaredPrefix(before, agentIDs, credentialKey, i + 1);
          return false;
        }
      }
      assert agentIDs[..|agentIDs|] == agentIDs;
      MapAgreesWithList(credentials, seen);
      return true;
    }
  }

  lemma DeclaredNext(before: seq<Agent>, agentIDs: seq<string>, key: string, i: nat)
    requires i < |agentIDs|
    ensures before + DeclaredBy(agentIDs[..i], key) + Declared(agentIDs[i], key)
         == before + DeclaredBy(agentIDs[..i + 1], key)
  {
    assert agentIDs[..i + 1][..i] == agentIDs[..i];
  }

  /** A conflict among the first `n` is a conflict among all. */
  lemma {:induction false} DeclaredPrefix(before: seq<Agent>, agentIDs: seq<string>, key: string, n: nat)
    requires n <= |agentIDs| && Conflicting(before + DeclaredBy(agentIDs[..n], key))
    ensures Conflicting(before + DeclaredBy(agentIDs, key))
    decreases |agentIDs| - n
  {
    if n < |agentIDs| {
      DeclaredNext(before, agentIDs, key, n);
      ConflictStays(before + DeclaredBy(agentIDs[..n], key), Declared(agentIDs[n], key));
      DeclaredPrefix(before, agentIDs, key, n + 1);
    } else {
      assert agentIDs[..n] == agentIDs;
    }
  }

  lemma DeclarationsNext(tokens: seq<TokenConfig>, hashed: string -> string, i: nat)
    requires i < |tokens|
    ensures Declarations(tokens[..i + 1], hashed)
         == Declarations(tokens[..i], hashed) + DeclaredBy(tokens[i].agents, CredentialKey(tokens[i], hashed))
  {
    assert tokens[..i + 1][..i] == tokens[..i];
  }

  lemma {:induction false} DeclarationsPrefix(tokens: seq<TokenConfig>, hashed: string -> string, n: nat)
    requires n <= |tokens| && Conflicting(Declarations(tokens[..n], hashed))
    ensures Conflicting(Declarations(tokens, hashed))
    decreases |tokens| - n
  {
    if n < |tokens| {
      DeclarationsNext(tokens, hashed, n);
      ConflictStays(Declarations(tokens[..n], hashed), DeclaredBy(tokens[n].agents, CredentialKey(tokens[n], hashed)));
      DeclarationsPrefix(tokens, hashed, n + 1);
    } else {
      assert tokens[..n] == tokens;
    }
  }

  /** The agents of `applyRequestFromConfig`. */
  method AgentsFromConfig(tokens: seq<TokenConfig>, hashed: string -> string) returns (r: Result)
    ensures r == Merged(Declarations(tokens, hashed))
  {
    var list := new AgentList();
    for i := 0 to |tokens|
      invariant fresh(list) && list.Valid() && list.seen == Declarations(tokens[..i], hashed)
    {
      DeclarationsNext(tokens, hashed, i);
      var ok := list.AppendAll(tokens[i].agents, CredentialKey(tokens[i], hashed));
      if !ok {
        DeclarationsPrefix(tokens, hashed, i + 1);
        return Conflict;
      }
    }
    assert tokens[..|tokens|] == tokens;
    MapAgreesWithList(list.credentials, list.seen);
    return Agents(list.agents);
  }

  /** A token as the config file spells it. */
  datatype RawToken = RawToken(id: string, value: string, network: string, scopes: seq<string>, agents: seq<string>)

  function Trimmed(ss: seq<string>): (r: seq<string>) {
    seq(|ss|, i requires 0 <= i < |ss| => TrimSpace(ss[i]))
  }

  /** `authTokenConfigs`: what loading makes of the file's tokens. */
  function Loaded(tokens: seq<RawToken>): (r: seq<TokenConfig>)
    ensures |r| == |tokens|
  {
    seq(|tokens|, i requires 0 <= i < |tokens| =>
      TokenConfig(tokens[i].id, tokens[i].value, TrimSpace(tokens[i].network), Trimmed(tokens[i].scopes),
                  tokens[i].agents))
  }

  /** The agents of `applyRequestFromRawConfig`: the same list, and the same refusals, as the loaded
      config gives. */
  method AgentsFromRawConfig(tokens: seq<RawToken>, hashed: string -> string) returns (r: Result)
    ensures r == Merged(Declarations(Loaded(tokens), hashed))
  {
    ghost var loaded := Loaded(tokens);
    var list := new AgentList();
    for i := 0 to |tokens|
      invariant fresh(list) && list.Valid() && list.seen == Declarations(loaded[..i], hashed)
    {
      DeclarationsNext(loaded, hashed, i);
      var token := TokenConfig(tokens[i].id, tokens[i].value, "", [], []);
      assert CredentialKey(token, hashed) == CredentialKey(loaded[i], hashed);
      var ok := list.AppendAll(tokens[i].agents, CredentialKey(token, hashed));
      if !ok {
        DeclarationsPrefix(loaded, hashed, i + 1);
        return Conflict;
      }
    }
    assert loaded[..|tokens|] == loaded;
    MapAgreesWithList(list.credentials, list.seen);
    return Agents(list.agents);
  }

  predicate Blank(s: string) {
    forall i | 0 <= i < |s| :: IsSpace(s[i])
  }

  /** Trimming takes the space at both ends, and nothing else. */
  lemma {:induction false} TrimIsExact(s: string) returns (front: string, back: string)
    ensures s == front + TrimSpace(s) + back && Blank(front) && Blank(back)
    ensures var t := TrimSpace(s); t != "" ==> !IsSpace(t[0]) && !IsSpace(t[|t| - 1])
    decreases |s|
  {
    front, back := "", "";
    if s != "" && IsSpace(s[0]) {
      front, back := TrimIsExact(s[1..]);
      FrontStep(s, front, TrimSpace(s[1..]), back);
      front := [s[0]] + front;
    } else if s != "" && IsSpace(s[|s| - 1]) {
      front, back := TrimIsExact(s[..|s| - 1]);
      BackStep(s, front, TrimSpace(s[..|s| - 1]), back);
      back := back + [s[|s| - 1]];
    }
  }

  lemma FrontStep(s: string, front: string, t: string, back: string)
    requires s != "" && IsSpace(s[0]) && s[1..] == front + t + back && Blank(front)
    ensures s == ([s[0]] + front) + t + back && Blank([s[0]] + front)
  {
    assert s == [s[0]] + s[1..];
  }

  lemma BackStep(s: string, front: string, t: string, back: string)
    requires s != "" && IsSpace(s[|s| - 1]) && s[..|s| - 1] == front + t + back && Blank(back)
    ensures s == front + t + (back + [s[|s| - 1]]) && Blank(back + [s[|s| - 1]])
  {
    assert s == s[..|s| - 1] + [s[|s| - 1]];
  }

  lemma {:induction false} DeclaredByIs(agentIDs: seq<string>, key: string, d: Agent)
    ensures d in DeclaredBy(agentIDs, key)
       <==> d.key == TrimSpace(key) && d.id != "" && exists i | 0 <= i < |agentIDs| :: TrimSpace(agentIDs[i]) == d.id
    decreases |agentIDs|
  {
    if agentIDs != [] {
      var n := |agentIDs| - 1;
      DeclaredByIs(agentIDs[..n], key, d);
      assert forall i | 0 <= i < n :: agentIDs[..n][i] == agentIDs[i];
    }
  }

  lemma TrimmedStays(s: string, prefix: string)
    requires s != "" && !IsSpace(s[0]) && !IsSpace(s[|s| - 1])
    requires prefix == "" || !IsSpace(prefix[0])
    ensures TrimSpace(prefix + s) == prefix + s
  {
  }

  /** A token declares exactly its agents, blank ids aside, each under the key "token:" and the token's own id,
      all of it trimmed. */
  lemma OneTokenDeclares(token: TokenConfig, hashed: string -> string, d: Agent)
    requires TrimSpace(token.id) != ""
    ensures d in Declarations([token], hashed)
       <==> && d.key == "token:" + TrimSpace(token.id) && d.id != ""
            && exists i | 0 <= i < |token.agents| :: TrimSpace(token.agents[i]) == d.id
  {
    var id := TrimSpace(token.id);
    var front, back := TrimIsExact(token.id);
    TrimmedStays(id, "");
    assert "" + id == id;
    TrimmedStays(id, "token:");
    assert [token][..0] == [] && Declarations([], hashed) == [];
    DeclaredByIs(token.agents, CredentialKey(token, hashed), d);
  }
}
