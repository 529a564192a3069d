/** Matching the supplied secret values of an integration with its stored secrets. */
module Secrets {
  import opened Sequences

  datatype Secret = Secret(id: nat, name: string)

  function Names(secrets: seq<Secret>): (names: seq<string>)
    ensures |names| == |secrets| && forall i | 0 <= i < |names| :: names[i] == secrets[i].name
  {
    seq(|secrets|, i requires 0 <= i < |secrets| => secrets[i].name)
  }

  function Ids(secrets: seq<Secret>): (ids: seq<nat>)
    ensures |ids| == |secrets| && forall i | 0 <= i < |ids| :: ids[i] == secrets[i].id
  {
    seq(|secrets|, i requires 0 <= i < |secrets| => secrets[i].id)
  }

  /** What both handlers accept. */
  ghost predicate Acceptable(secrets: seq<Secret>, supplied: map<string, string>) {
    && |secrets| == |supplied|
    && forall name | name in supplied :: 1 <= |supplied[name]| <= 255 && name in Names(secrets)
  }

  /** The first secret with the name, or the length. */
  method Find(secrets: seq<Secret>, name: string) returns (i: nat)
    ensures i <= |secrets| && (i < |secrets| <==> name in Names(secrets))
    ensures i < |secrets| ==> secrets[i].name == name
  {
    i := 0;
    while i < |secrets|
      invariant i <= |secrets| && forall k | 0 <= k < i :: secrets[k].name != name
    {
      if secrets[i].name == name {
        assert Names(secrets)[i] == name;
        return;
      }
      i := i + 1;
    }
  }

  /** Equal lengths and every supplied name found leave no stored secret without a value. */
  lemma AcceptableCovers(secrets: seq<Secret>, supplied: map<string, string>)
    requires Acceptable(secrets, supplied)
    ensures Distinct(Names(secrets)) && ToSet(Names(secrets)) == supplied.Keys
  {
    DistinctSize(Names(secrets));
    assert supplied.Keys <= ToSet(Names(secrets));
    SubsetSize(supplied.Keys, ToSet(Names(secrets)));
    SubsetOfSameSize(supplied.Keys, ToSet(Names(secrets)));
  }

  lemma SubsetSize<T>(a: set<T>, b: set<T>)
    requires a <= b
    ensures |a| <= |b|
  {
    assert b == a + (b - a);
    assert |b| == |a| + |b - a|;
  }

  /** The values given to the stored ids: each id has the value supplied for its name. */
  ghost predicate Assigned(secrets: seq<Secret>, supplied: map<string, string>, secretMap: map<nat, string>) {
    && secretMap.Keys == ToSet(Ids(secrets))
    && forall i | 0 <= i < |secrets| ::
         secrets[i].name in supplied && secrets[i].id in secretMap
           && secretMap[secrets[i].id] == supplied[secrets[i].name]
  }

  lemma AssignedIsUnique(secrets: seq<Secret>, supplied: map<string, string>, a: map<nat, string>, b: map<nat, string>)
    requires Assigned(secrets, supplied, a) && Assigned(secrets, supplied, b)
    ensures a == b
  {
  }

  /** The part of the map walked so far: exactly the secrets named in `done` have their value. */
  ghost predicate Filled(secrets: seq<Secret>, supplied: map<string, string>, done: set<string>,
                         secretMap: map<nat, string>) {
    && (forall i | 0 <= i < |secrets| && secrets[i].name in done ::
          secrets[i].name in supplied && secrets[i].id in secretMap
            && secretMap[secrets[i].id] == supplied[secrets[i].name])
    && forall id | id in secretMap :: exists i :: 0 <= i < |secrets| && secrets[i].id == id && secrets[i].name in done
  }

  lemma FilledStep(secrets: seq<Secret>, supplied: map<string, string>, done: set<string>, secretMap: map<nat, string>,
                   i: nat)
    requires Distinct(Ids(secrets)) && Distinct(Names(secrets)) && Filled(secrets, supplied, done, secretMap)
    requires i < |secrets| && secrets[i].name in supplied
    ensures Filled(secrets, supplied, done + {secrets[i].name}, secretMap[secrets[i].id := supplied[secrets[i].name]])
  {
  }

  lemma AcceptableStep(secrets: seq<Secret>, supplied: map<string, string>, done: set<string>,
                       secretMap: map<nat, string>, i: nat)
    requires Distinct(Ids(secrets)) && (Acceptable(secrets, supplied) ==> Filled(secrets, supplied, done, secretMap))
    requires i < |secrets| && secrets[i].name in supplied
    ensures Acceptable(secrets, supplied) ==>
              Filled(secrets, supplied, done + {secrets[i].name}, secretMap[secrets[i].id := supplied[secrets[i].name]])
  {
    if Acceptable(secrets, supplied) {
      AcceptableCovers(secrets, supplied);
      FilledStep(secrets, supplied, done, secretMap, i);
    }
  }

  /** Every name in `done` has a value of permitted length and a stored secret. */
  ghost predicate Checked(secrets: seq<Secret>, supplied: map<string, string>, done: set<string>) {
    forall name | name in done :: name in supplied && 1 <= |supplied[name]| <= 255 && name in Names(secrets)
  }

  lemma AllFilled(secrets: seq<Secret>, supplied: map<string, string>, secretMap: map<nat, string>)
    requires ToSet(Names(secrets)) == supplied.Keys && Filled(secrets, supplied, supplied.Keys, secretMap)
    ensures Assigned(secrets, supplied, secretMap)
  {
  }

  /** As far as the request is acceptable, the map is filled for the names in `done`. */
  ghost predicate Progress(secrets: seq<Secret>, supplied: map<string, string>, done: set<string>,
                           secretMap: map<nat, string>) {
    Acceptable(secrets, supplied) ==> Filled(secrets, supplied, done, secretMap)
  }

  /** One iteration of the outer loop. */
  method MatchOne(secrets: seq<Secret>, supplied: map<string, string>, name: string, ghost done: set<string>,
                  before: map<nat, string>)
    returns (ok: bool, secretMap: map<nat, string>)
    requires Distinct(Ids(secrets)) && name in supplied
    requires Checked(secrets, supplied, done) && Progress(secrets, supplied, done, before)
    ensures !ok ==> !Acceptable(secrets, supplied)
    ensures ok ==> Checked(secrets, supplied, done + {name}) && Progress(secrets, supplied, done + {name}, secretMap)
  {
    if |supplied[name]| == 0 || |supplied[name]| > 255 {
      return false, before;
    }
    var i := Find(secrets, name);
    if i == |secrets| {
      return false, before;
    }
    AcceptableStep(secrets, supplied, done, before, i);
    return true, before[secrets[i].id := supplied[name]];
  }

  lemma AllMatched(secrets: seq<Secret>, supplied: map<string, string>, secretMap: map<nat, string>)
    requires |secrets| == |supplied|
    requires Checked(secrets, supplied, supplied.Keys) && Progress(secrets, supplied, supplied.Keys, secretMap)
    ensures Acceptable(secrets, supplied) && Distinct(Names(secrets)) && Assigned(secrets, supplied, secretMap)
  {
    AcceptableCovers(secrets, supplied);
    AllFilled(secrets, supplied, secretMap);
  }

  /** The matching loop; the supplied map is walked in any order. Stored ids are a primary key. */
  method MatchSecrets(secrets: seq<Secret>, supplied: map<string, string>)
    returns (ok: bool, secretMap: map<nat, string>)
    requires Distinct(Ids(secrets))
    ensures ok <==> Acceptable(secrets, supplied)
    ensures ok ==> Distinct(Names(secrets)) && Assigned(secrets, supplied, secretMap)
  {
    secretMap := map[];
    if |secrets| != |supplied| {
      return false, secretMap;
    }
    var left := supplied.Keys;
    ghost var done: set<string> := {};
    while left != {}
      invariant left !! done && left + done == supplied.Keys
      invariant Checked(secrets, supplied, done) && Progress(secrets, supplied, done, secretMap)
      decreases |left|
    {
      var name :| name in left;
      left := left - {name};
      ok, secretMap := MatchOne(secrets, supplied, name, done, secretMap);
      if !ok {
        return false, secretMap;
      }
      done := done + {name};
    }
    assert done == supplied.Keys;
    AllMatched(secrets, supplied, secretMap);
    return true, secretMap;
  }
}
