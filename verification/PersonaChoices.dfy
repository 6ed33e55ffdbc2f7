/** The personas offered when a project is configured: the saved ones, and one for every other signed-in account. */
module PersonaChoices {
  import opened Wrappers
  import opened IdentityModels
  import opened CatalogCommands

  datatype Account = Account(host: string, account: string)

  datatype GitDefaults = GitDefaults(host: string, name: string, email: string)

  // ---------- numbered names ----------

  function Suffixed(name: string, n: nat): string {
    if n < 2 then name else name + "-" + Digits(n)
  }

  lemma SuffixesDiffer(name: string, a: nat, b: nat)
    requires 1 <= a < b
    ensures Suffixed(name, a) != Suffixed(name, b)
  {
    DigitsReadBack(a);
    DigitsReadBack(b);
    if a == 1 {
      assert |Suffixed(name, b)| > |name|;
    } else {
      assert Suffixed(name, a)[|name| + 1..] == Digits(a);
      assert Suffixed(name, b)[|name| + 1..] == Digits(b);
    }
  }

  /** The first of `name`, `name-2`, `name-3` and so on that is not taken; there always is one. */
  method FreshID(name: string, ids: set<string>) returns (id: string)
    ensures id !in ids
    ensures exists n :: n >= 1 && id == Suffixed(name, n) && forall m | 1 <= m < n :: Suffixed(name, m) in ids
    ensures id == name || (name in ids && exists n: nat :: n >= 2 && id == name + "-" + Digits(n))
  {
    id := name;
    var suffix := 2;
    ghost var tried: set<string> := {};
    while id in ids
      invariant suffix >= 2 && id == Suffixed(name, suffix - 1)
      invariant tried <= ids
      invariant forall m | 1 <= m < suffix - 1 :: Suffixed(name, m) in tried
      invariant forall t | t in tried :: exists m :: 1 <= m < suffix - 1 && t == Suffixed(name, m)
      decreases |ids - tried|
    {
      if id in tried {
        var m :| 1 <= m < suffix - 1 && id == Suffixed(name, m);
        SuffixesDiffer(name, m, suffix - 1);
      }
      FewerLeft(ids, tried, id);
      tried := tried + {id};
      id := name + "-" + Digits(suffix);
      suffix := suffix + 1;
    }
    assert Suffixed(name, 1) == name;
    assert suffix > 2 ==> Suffixed(name, 1) in tried && id == name + "-" + Digits(suffix - 1);
  }

  lemma FewerLeft(ids: set<string>, tried: set<string>, id: string)
    requires id in ids && id !in tried
    ensures |ids - (tried + {id})| < |ids - tried|
  {
    assert ids - (tried + {id}) == ids - tried - {id};
  }

  // ---------- choices ----------

  predicate IsFor(rules: Rules, p: Persona, a: Account) {
    rules.fold(p.host) == rules.fold(a.host) && rules.fold(p.account) == rules.fold(a.account)
  }

  predicate HasFor(rules: Rules, personas: seq<Persona>, a: Account) {
    exists i :: 0 <= i < |personas| && IsFor(rules, personas[i], a)
  }

  predicate Suits(rules: Rules, defaults: GitDefaults, a: Account) {
    defaults.host != "" ==> rules.fold(defaults.host) == rules.fold(a.host)
  }

  /**
   * The saved personas come first and unchanged; with distinct saved IDs all IDs are distinct; every suitable account
   * has a persona, and only suitable accounts without a saved persona got a new one.
   */
  method OfferPersonas(rules: Rules, saved: seq<Persona>, accounts: seq<Account>, defaults: GitDefaults)
    returns (result: seq<Persona>)
    ensures saved <= result
    ensures DistinctPersonas(saved) ==> DistinctPersonas(result)
    ensures forall k | 0 <= k < |accounts|
                       && (defaults.host == "" || rules.fold(defaults.host) == rules.fold(accounts[k].host)) ::
              HasFor(rules, result, accounts[k])
    ensures forall i | |saved| <= i < |result| :: MadeForOne(rules, saved, defaults, accounts, result[i])
  {
    result := saved;
    var ids := IDs(saved);
    var k := 0;
    while k < |accounts|
      invariant k <= |accounts| && saved <= result && ids == IDs(result)
      invariant DistinctPersonas(saved) ==> DistinctPersonas(result)
      invariant forall j | 0 <= j < k && Suits(rules, defaults, accounts[j]) :: HasFor(rules, result, accounts[j])
      invariant forall i | |saved| <= i < |result| :: MadeForOne(rules, saved, defaults, accounts, result[i])
    {
      var account := accounts[k];
      if Suits(rules, defaults, account) {
        var found := FindFor(rules, saved, account);
        if found {
          StillHas(rules, saved, result[|saved|..], account);
          assert saved + result[|saved|..] == result;
        } else {
          var id := FreshID(account.account, ids);
          var p := Persona(id, account.account, defaults.name, defaults.email, account.host, account.account);
          OneMorePersona(rules, result, p, account);
          forall j | 0 <= j < k && Suits(rules, defaults, accounts[j])
            ensures HasFor(rules, result + [p], accounts[j])
          {
            StillHas(rules, result, [p], accounts[j]);
          }
          assert MadeFor(rules, saved, defaults, accounts[k], p);
          ids := ids + {id};
          result := result + [p];
        }
      }
      k := k + 1;
    }
  }

  /** What the choices are made by: host and account, up to case; the host of the defaults, if they name one. */
  lemma ChoicesMean(rules: Rules, saved: seq<Persona>, defaults: GitDefaults, a: Account, p: Persona)
    ensures IsFor(rules, p, a) <==> rules.fold(p.host) == rules.fold(a.host) && rules.fold(p.account) == rules.fold(a.account)
    ensures MadeFor(rules, saved, defaults, a, p) ==>
              && (defaults.host == "" || rules.fold(defaults.host) == rules.fold(a.host))
              && (forall q | q in saved :: rules.fold(q.host) != rules.fold(a.host) || rules.fold(q.account) != rules.fold(a.account))
              && p.name == a.account && p.account == a.account && p.host == a.host
              && p.gitName == defaults.name && p.gitEmail == defaults.email
  {
  }

  /** A new persona: its account suits the defaults and has no saved persona. */
  predicate MadeFor(rules: Rules, saved: seq<Persona>, defaults: GitDefaults, a: Account, p: Persona) {
    && Suits(rules, defaults, a) && !HasFor(rules, saved, a)
    && p == Persona(p.id, a.account, defaults.name, defaults.email, a.host, a.account)
  }

  ghost predicate MadeForOne(rules: Rules, saved: seq<Persona>, defaults: GitDefaults, accounts: seq<Account>, p: Persona) {
    exists k :: 0 <= k < |accounts| && MadeFor(rules, saved, defaults, accounts[k], p)
  }

  method FindFor(rules: Rules, saved: seq<Persona>, a: Account) returns (found: bool)
    ensures found <==> HasFor(rules, saved, a)
  {
    var i := 0;
    while i < |saved|
      invariant i <= |saved|
      invariant forall j | 0 <= j < i :: !IsFor(rules, saved[j], a)
    {
      if IsFor(rules, saved[i], a) {
        return true;
      }
      i := i + 1;
    }
    return false;
  }

  lemma StillHas(rules: Rules, personas: seq<Persona>, more: seq<Persona>, a: Account)
    requires HasFor(rules, personas, a)
    ensures HasFor(rules, personas + more, a)
  {
    var i :| 0 <= i < |personas| && IsFor(rules, personas[i], a);
    assert IsFor(rules, (personas + more)[i], a);
  }

  lemma OneMorePersona(rules: Rules, personas: seq<Persona>, p: Persona, a: Account)
    requires p.id !in IDs(personas) && IsFor(rules, p, a)
    ensures IDs(personas + [p]) == IDs(personas) + {p.id}
    ensures DistinctPersonas(personas) ==> DistinctPersonas(personas + [p])
    ensures HasFor(rules, personas + [p], a)
  {
    var all := personas + [p];
    assert all[|personas|] == p && p in all;
    assert forall q | q in personas :: q in all && q.id in IDs(personas);
    assert IsFor(rules, all[|personas|], a);
    forall i | 0 <= i < |personas|
      ensures all[i] == personas[i] && all[i].id != p.id
    {
      assert personas[i] in personas;
    }
  }
}
