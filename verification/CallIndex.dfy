/**
  pipair, the index from functions and pairs of functions to their callers.
*/
module CallIndex {

  type Index = map<set<string>, set<string>>

  // The keys of an index: one or two functions.
  ghost predicate IsKey(key: set<string>) {
    exists a, b :: a in key && b in key && key == {a, b}
  }

  function Lookup(location: Index, key: set<string>): set<string> {
    if key in location then location[key] else {}
  }

  // One more user of a key, as the four programs record it.
  function Put(location: Index, key: set<string>, caller: string): Index {
    location[key := Lookup(location, key) + {caller}]
  }

  // The caller has been added to these keys.
  ghost predicate Recorded(location: Index, location': Index, keys: set<set<string>>, caller: string) {
    && location'.Keys == location.Keys + keys
    && forall key :: key in location' ==> location'[key] == Lookup(location, key) + if key in keys then {caller} else {}
  }

  lemma RecordOne(location: Index, location': Index, keys: set<set<string>>, caller: string, key: set<string>)
    requires Recorded(location, location', keys, caller)
    ensures Recorded(location, Put(location', key, caller), keys + {key}, caller)
  {
  }
}
