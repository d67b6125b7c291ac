/**
 Which configured token a command falls back to: one that may do what is asked, and as little else
 as possible.
 */
module LeastPrivilege {

  import opened Wrappers
  import opened ApplyAgents

  const ADMIN: string := "admin"
  const OBSERVE: string := "observe"

  predicate CarriesAdmin(token: TokenConfig) {
    ADMIN in token.scopes
  }

  /** Admin stands in for observe, and for nothing else. */
  predicate AllowsScope(token: TokenConfig, required: string) {
    required in token.scopes || (required == OBSERVE && CarriesAdmin(token))
  }

  predicate Eligible(token: TokenConfig, required: string) {
    TrimSpace(token.value) != "" && token.agents == [] && AllowsScope(token, required)
  }

  /** Admin-bearing tokens come last; then the number of scopes decides. */
  predicate LessPrivileged(a: TokenConfig, b: TokenConfig) {
    if CarriesAdmin(a) != CarriesAdmin(b) then !CarriesAdmin(a) else |a.scopes| < |b.scopes|
  }

  /** `tokens[k]` is the choice: no eligible token is less privileged, and every eligible one before
      it is more so. */
  predicate IsChoice(tokens: seq<TokenConfig>, required: string, k: nat) {
    && k < |tokens| && Eligible(tokens[k], required)
    && (forall j | 0 <= j < |tokens| && Eligible(tokens[j], required) :: !LessPrivileged(tokens[j], tokens[k]))
    && (forall j | 0 <= j < k && Eligible(tokens[j], required) :: LessPrivileged(tokens[k], tokens[j]))
  }

  /** The choice in scopes: a token with admin only where every eligible one has it, among tokens of its kind
      one with the fewest scopes, and of those the first. */
  predicate ChosenByScopes(tokens: seq<TokenConfig>, required: string, k: nat) {
    && k < |tokens| && Eligible(tokens[k], required)
    && forall j | 0 <= j < |tokens| && Eligible(tokens[j], required) ::
         && (ADMIN in tokens[k].scopes ==> ADMIN in tokens[j].scopes)
         && ((ADMIN in tokens[k].scopes <==> ADMIN in tokens[j].scopes) ==>
               |tokens[k].scopes| <= |tokens[j].scopes| && (j < k ==> |tokens[k].scopes| < |tokens[j].scopes|))
  }

  lemma ChoiceIsByScopes(tokens: seq<TokenConfig>, required: string, k: nat)
    ensures IsChoice(tokens, required, k) <==> ChosenByScopes(tokens, required, k)
  {
  }

  method SelectLeastPrivilegedToken(tokens: seq<TokenConfig>, required: string) returns (r: Option<TokenConfig>)
    ensures r.None? <==> forall j | 0 <= j < |tokens| :: !Eligible(tokens[j], required)
    ensures r.Some? ==>
              && (exists k: nat :: ChosenByScopes(tokens, required, k) && tokens[k] == r.value)
              && TrimSpace(r.value.value) != "" && r.value.agents == []
              && (required in r.value.scopes || (required == "observe" && "admin" in r.value.scopes))
  {
    var found := false;
    var best := TokenConfig("", "", "", [], []);
    ghost var k: nat := 0;
    for i := 0 to |tokens|
      invariant !found ==> forall j | 0 <= j < i :: !Eligible(tokens[j], required)
      invariant found ==> k < i && best == tokens[k] && IsChoice(tokens[..i], required, k)
    {
      assert tokens[..i + 1] == tokens[..i] + [tokens[i]];
      var token := tokens[i];
      if TrimSpace(token.value) == "" || |token.agents| > 0 || !AllowsScope(token, required) {
        continue;
      }
      if !found || LessPrivileged(token, best) {
        best, found := token, true;
        k := i;
      }
    }
    assert tokens[..|tokens|] == tokens;
    ChoiceIsByScopes(tokens, required, k);
    return if found then Some(best) else None;
  }
}
