/**
 Contract storage: a primary tree of states by contract identifier, and a secondary tree of
 text keys by which contracts are listed and counted by state name.
 */
module DlcStorage {
  import opened Prelude
  import opened DlcStates
  import Hex

  datatype Store = Store(states: map<ContractId, DlcState>, index: set<string>)

  const EMPTY := Store(map[], {})

  function IndexKey(name: string, id: ContractId): string { name + ":" + Hex.Encode(id) }

  function KeyOf(st: DlcState): string { IndexKey(st.Name(), st.Id()) }

  function Saved(s: Store, st: DlcState): Store {
    var id := st.Id();
    var cleaned := if id in s.states then s.index - {IndexKey(s.states[id].Name(), id)} else s.index;
    Store(s.states[id := st], cleaned + {IndexKey(st.Name(), id)})
  }

  function Deleted(s: Store, id: ContractId): Store {
    if id in s.states
    then Store(s.states - {id}, s.index - {IndexKey(s.states[id].Name(), id)})
    else s
  }

  // ---------- the two trees agree ----------

  /** The keys that index these states. */
  ghost function IndexOf(states: map<ContractId, DlcState>): set<string> {
    set id | id in states :: IndexKey(states[id].Name(), id)
  }

  /** Each state is filed under its own identifier, and indexed under exactly its own key. */
  ghost predicate Inv(s: Store) {
    (forall id :: id in s.states ==> s.states[id].Id() == id) && s.index == IndexOf(s.states)
  }

  predicate NoColon(s: string) { ':' !in s }

  lemma NamesHaveNoColon(st: DlcState)
    ensures NoColon(st.Name())
  {}

  lemma HexHasNoColon(id: ContractId)
    ensures NoColon(Hex.Encode(id)) && |Hex.Encode(id)| == 64
  {
    Hex.EncodedText(id);
    assert !Hex.CanonicalChar(':');
  }

  lemma OneColon(name: string, hex: string, i: nat)
    requires NoColon(name) && NoColon(hex) && i < |name + ":" + hex|
    ensures (name + ":" + hex)[i] == ':' <==> i == |name|
  {
    var c := (name + ":" + hex)[i];
    assert i < |name| ==> c == name[i] && c in name;
    assert i > |name| ==> c == hex[i - |name| - 1] && c in hex;
  }

  /** The one colon of a key: any text before a colon at its front is the whole name. */
  lemma PrefixIsName(text: string, name: string, hex: string)
    requires NoColon(name) && NoColon(hex)
    ensures text + ":" <= name + ":" + hex <==> text == name
  {
    var prefix, key := text + ":", name + ":" + hex;
    assert key == (name + ":") + hex;
    if prefix <= key {
      assert key[|text|] == prefix[|text|] == ':';
      OneColon(name, hex, |text|);
      assert text == prefix[..|text|] == key[..|text|] == name;
    }
  }

  lemma KeysAreDistinct(a: string, x: ContractId, b: string, y: ContractId)
    requires NoColon(a) && NoColon(b) && IndexKey(a, x) == IndexKey(b, y)
    ensures a == b && x == y
  {
    HexHasNoColon(x);
    HexHasNoColon(y);
    PrefixIsName(a, b, Hex.Encode(y));
    assert IndexKey(a, x) == (a + ":") + Hex.Encode(x);
    assert Hex.Encode(x) == IndexKey(a, x)[|a| + 1..] == Hex.Encode(y);
    Hex.EncodeIsInjective(x, y);
  }

  /** Forgetting a state takes its own key out of the index, and no other. */
  lemma IndexWithout(states: map<ContractId, DlcState>, id: ContractId)
    requires id in states
    ensures IndexOf(states - {id}) == IndexOf(states) - {IndexKey(states[id].Name(), id)}
  {
    var own := IndexKey(states[id].Name(), id);
    NamesHaveNoColon(states[id]);
    forall j | j in states && j != id
      ensures IndexKey(states[j].Name(), j) != own
    {
      NamesHaveNoColon(states[j]);
      if IndexKey(states[j].Name(), j) == own {
        KeysAreDistinct(states[j].Name(), j, states[id].Name(), id);
      }
    }
    forall k | k in IndexOf(states) - {own}
      ensures k in IndexOf(states - {id})
    {
      var j :| j in states && k == IndexKey(states[j].Name(), j);
      assert j in states - {id};
    }
  }

  lemma IndexWith(states: map<ContractId, DlcState>, id: ContractId, st: DlcState)
    ensures IndexOf(states[id := st]) == IndexOf(states - {id}) + {IndexKey(st.Name(), id)}
  {
    var after := states[id := st];
    forall k | k in IndexOf(after)
      ensures k in IndexOf(states - {id}) + {IndexKey(st.Name(), id)}
    {
      var j :| j in after && k == IndexKey(after[j].Name(), j);
      assert j != id ==> j in states - {id};
    }
    forall k | k in IndexOf(states - {id}) + {IndexKey(st.Name(), id)}
      ensures k in IndexOf(after)
    {
      if k == IndexKey(st.Name(), id) {
        assert id in after;
      } else {
        var j :| j in states - {id} && k == IndexKey((states - {id})[j].Name(), j);
        assert j in after && after[j] == states[j];
      }
    }
  }

  lemma SaveKeepsInv(s: Store, st: DlcState)
    requires Inv(s)
    ensures Inv(Saved(s, st))
  {
    var id := st.Id();
    IndexWith(s.states, id, st);
    if id in s.states {
      IndexWithout(s.states, id);
    } else {
      assert s.states - {id} == s.states;
    }
  }

  lemma DeleteKeepsInv(s: Store, id: ContractId)
    requires Inv(s)
    ensures Inv(Deleted(s, id))
  {
    if id in s.states {
      IndexWithout(s.states, id);
    }
  }

  datatype Write = Save(state: DlcState) | Delete(id: ContractId)

  function Written(s: Store, writes: seq<Write>): Store
    decreases |writes|
  {
    if writes == [] then s
    else Written(if writes[0].Save? then Saved(s, writes[0].state) else Deleted(s, writes[0].id), writes[1..])
  }

  /** After any sequence of saves and deletes the index mirrors the states. */
  lemma {:induction false} WritesKeepInv(s: Store, writes: seq<Write>)
    requires Inv(s)
    ensures Inv(Written(s, writes))
    decreases |writes|
  {
    if writes != [] {
      match writes[0] {
        case Save(st) => SaveKeepsInv(s, st); WritesKeepInv(Saved(s, st), writes[1..]);
        case Delete(id) => DeleteKeepsInv(s, id); WritesKeepInv(Deleted(s, id), writes[1..]);
      }
    }
  }

  // ---------- what a write does ----------

  /** A save stores the state under its identifier and touches no other. */
  lemma SaveStores(s: Store, st: DlcState, id: ContractId)
    ensures st.Id() in Saved(s, st).states && Saved(s, st).states[st.Id()] == st
    ensures id != st.Id() ==>
      && (id in Saved(s, st).states <==> id in s.states)
      && (id in s.states ==> Saved(s, st).states[id] == s.states[id])
  {}

  /** A delete removes the state and touches no other. */
  lemma DeleteRemoves(s: Store, gone: ContractId, id: ContractId)
    ensures gone !in Deleted(s, gone).states
    ensures id != gone ==>
      && (id in Deleted(s, gone).states <==> id in s.states)
      && (id in s.states ==> Deleted(s, gone).states[id] == s.states[id])
  {}

  predicate Writes(w: Write, id: ContractId) {
    match w
    case Save(st) => st.Id() == id
    case Delete(gone) => gone == id
  }

  /** The last of some writes that names a contract. */
  function LastWrite(writes: seq<Write>, id: ContractId): Option<Write> {
    if writes == [] then None
    else
      var last := writes[|writes| - 1];
      if Writes(last, id) then Some(last) else LastWrite(writes[..|writes| - 1], id)
  }

  lemma {:induction false} WrittenLast(s: Store, writes: seq<Write>, w: Write)
    ensures Written(s, writes + [w]) ==
      if w.Save? then Saved(Written(s, writes), w.state) else Deleted(Written(s, writes), w.id)
    decreases |writes|
  {
    if writes == [] {
      assert (writes + [w])[1..] == [];
    } else {
      assert (writes + [w])[1..] == writes[1..] + [w];
      WrittenLast(if writes[0].Save? then Saved(s, writes[0].state) else Deleted(s, writes[0].id), writes[1..], w);
    }
  }

  /**
   The store remembers the last write: after any writes to a new store, a contract is stored
   exactly when the last write naming it was a save, and then with the state saved.
   */
  lemma {:induction false} LastWriteWins(writes: seq<Write>, id: ContractId)
    ensures var states, last := Written(EMPTY, writes).states, LastWrite(writes, id);
      && (id in states <==> last.Some? && last.value.Save?)
      && (id in states ==> states[id] == last.value.state)
    decreases |writes|
  {
    if writes != [] {
      var front, last := writes[..|writes| - 1], writes[|writes| - 1];
      assert writes == front + [last];
      LastWriteWins(front, id);
      WrittenLast(EMPTY, front, last);
      match last {
        case Save(st) => SaveStores(Written(EMPTY, front), st, id);
        case Delete(gone) => DeleteRemoves(Written(EMPTY, front), gone, id);
      }
    }
  }

  // ---------- listings ----------

  /** The contracts whose state has a given name. */
  ghost function Named(s: Store, name: string): set<ContractId> {
    set id | id in s.states && s.states[id].Name() == name
  }

  /** The results are the states of exactly these contracts, once each. */
  ghost predicate Lists(results: seq<DlcState>, s: Store, ids: set<ContractId>) {
    && (forall i :: 0 <= i < |results| ==>
          results[i].Id() in ids && results[i].Id() in s.states && s.states[results[i].Id()] == results[i])
    && (forall i, j :: 0 <= i < j < |results| ==> results[i].Id() != results[j].Id())
    && (forall id :: id in ids ==> exists i :: 0 <= i < |results| && results[i].Id() == id)
  }

  lemma ListsOneMore(results: seq<DlcState>, s: Store, ids: set<ContractId>, st: DlcState)
    requires Lists(results, s, ids) && st.Id() in s.states && s.states[st.Id()] == st && st.Id() !in ids
    ensures Lists(results + [st], s, ids + {st.Id()})
  {
    var more := results + [st];
    forall id | id in ids + {st.Id()}
      ensures exists i :: 0 <= i < |more| && more[i].Id() == id
    {
      if id == st.Id() {
        assert more[|results|].Id() == id;
      } else {
        var i :| 0 <= i < |results| && results[i].Id() == id;
        assert more[i].Id() == id;
      }
    }
  }

  /** A listing of some contracts followed by one of others lists both. */
  lemma ListsBoth(a: seq<DlcState>, b: seq<DlcState>, s: Store, x: set<ContractId>, y: set<ContractId>)
    requires Lists(a, s, x) && Lists(b, s, y) && x !! y
    ensures Lists(a + b, s, x + y)
  {
    var ab := a + b;
    forall id | id in x + y
      ensures exists i :: 0 <= i < |ab| && ab[i].Id() == id
    {
      if id in x {
        var i :| 0 <= i < |a| && a[i].Id() == id;
        assert ab[i].Id() == id;
      } else {
        var i :| 0 <= i < |b| && b[i].Id() == id;
        assert ab[|a| + i].Id() == id;
      }
    }
  }

  /** A listing has one entry for each contract it lists. */
  lemma {:induction false} ListingLength(results: seq<DlcState>, s: Store, ids: set<ContractId>)
    requires Lists(results, s, ids)
    ensures |results| == |ids|
    decreases |results|
  {
    if results == [] {
      assert ids == {};
    } else {
      var n := |results| - 1;
      var front, last := results[..n], results[n];
      forall id | id in ids - {last.Id()}
        ensures exists i :: 0 <= i < |front| && front[i].Id() == id
      {
        var i :| 0 <= i < |results| && results[i].Id() == id;
        assert front[i].Id() == id;
      }
      ListingLength(front, s, ids - {last.Id()});
    }
  }

  /** What a scan for a name meets: keys of the index that start with it, once each. */
  ghost predicate Scanned(keys: seq<string>, index: set<string>, prefix: string) {
    && (forall k :: k in keys <==> k in index && prefix <= k)
    && (forall i, j :: 0 <= i < j < |keys| ==> keys[i] != keys[j])
  }

  /** The contracts in a given state whose keys are among these. */
  ghost function Reached(s: Store, name: string, keys: seq<string>): set<ContractId> {
    set id | id in Named(s, name) && IndexKey(name, id) in keys
  }

  /** Every key met is the key of one contract in that state. */
  lemma ScanMeetsNamed(s: Store, name: string, keys: seq<string>, i: nat) returns (id: ContractId)
    requires Inv(s) && Scanned(keys, s.index, name + ":") && i < |keys|
    ensures id in Named(s, name) && keys[i] == IndexKey(name, id) && NoColon(name)
    ensures id !in Reached(s, name, keys[..i])
    ensures Reached(s, name, keys[..i + 1]) == Reached(s, name, keys[..i]) + {id}
  {
    assert keys[i] in keys;
    id :| id in s.states && keys[i] == IndexKey(s.states[id].Name(), id);
    NamesHaveNoColon(s.states[id]);
    HexHasNoColon(id);
    PrefixIsName(name, s.states[id].Name(), Hex.Encode(id));
    assert keys[..i + 1] == keys[..i] + [keys[i]];
    forall j | j in Named(s, name) && IndexKey(name, j) == keys[i]
      ensures j == id
    {
      KeysAreDistinct(name, j, name, id);
    }
  }

  lemma ScanMeetsAll(s: Store, name: string, keys: seq<string>)
    requires Inv(s) && Scanned(keys, s.index, name + ":")
    ensures Reached(s, name, keys) == Named(s, name)
  {
    forall id | id in Named(s, name)
      ensures IndexKey(name, id) in keys
    {
      assert IndexKey(name, id) == (name + ":") + Hex.Encode(id);
      assert IndexKey(s.states[id].Name(), id) in s.index;
    }
  }

  lemma ReachedGrows(s: Store, name: string, keys: seq<string>, i: nat)
    requires Inv(s) && Scanned(keys, s.index, name + ":") && i < |keys|
    ensures |Reached(s, name, keys[..i + 1])| == |Reached(s, name, keys[..i])| + 1
  {
    var id := ScanMeetsNamed(s, name, keys, i);
  }

  lemma {:induction false} ScanLength(s: Store, name: string, keys: seq<string>, n: nat)
    requires Inv(s) && Scanned(keys, s.index, name + ":") && n <= |keys|
    ensures |Reached(s, name, keys[..n])| == n
  {
    if n == 0 {
      assert Reached(s, name, keys[..0]) == {};
    } else {
      ScanLength(s, name, keys, n - 1);
      ReachedGrows(s, name, keys, n - 1);
    }
  }

  /** The state filed under an identifier in hex, if the text is one and there is a state. */
  function Filed(states: map<ContractId, DlcState>, hex: string): Option<DlcState>
    requires |hex| % 2 == 0
  {
    var bytes := Hex.Decode(hex);
    if bytes.Some? && |bytes.value| == 32 && bytes.value in states then Some(states[bytes.value]) else None
  }

  lemma FiledUnderOwnKey(states: map<ContractId, DlcState>, name: string, id: ContractId)
    ensures IndexKey(name, id) == (name + ":") + Hex.Encode(id)
    ensures IndexKey(name, id)[|name| + 1..] == Hex.Encode(id) && |Hex.Encode(id)| % 2 == 0
    ensures Filed(states, Hex.Encode(id)) == if id in states then Some(states[id]) else None
  {
    Hex.DecodeEncode(id);
  }

  // ---------- the storage object ----------

  class Storage {
    var states: map<ContractId, DlcState>
    var index: set<string>

    ghost predicate Valid()
      reads this
    {
      Inv(View())
    }

    function View(): Store
      reads this
    {
      Store(states, index)
    }

    constructor ()
      ensures Valid() && View() == EMPTY
    {
      states, index := map[], {};
    }

    method Save(state: DlcState)
      requires Valid()
      modifies this
      ensures Valid()
      ensures View() == Saved(old(View()), state)
    {
      SaveKeepsInv(View(), state);
      var id := state.Id();
      var before := if id in states then Some(states[id]) else None;
      states := states[id := state];
      UpdateIndex(id, before, Some(state));
    }

    method Get(id: ContractId) returns (r: Option<DlcState>)
      ensures r == if id in states then Some(states[id]) else None
    {
      if id in states {
        return Some(states[id]);
      }
      r := None;
    }

    method Delete(id: ContractId)
      requires Valid()
      modifies this
      ensures Valid()
      ensures View() == Deleted(old(View()), id)
    {
      DeleteKeepsInv(View(), id);
      var before := if id in states then Some(states[id]) else None;
      states := states - {id};
      if before.Some? {
        UpdateIndex(id, before, None);
      } else {
        assert states == old(states);
      }
    }

    method UpdateIndex(id: ContractId, before: Option<DlcState>, after: Option<DlcState>)
      modifies this`index
      ensures index == (if before.Some? then old(index) - {IndexKey(before.value.Name(), id)} else old(index))
                     + (if after.Some? then {IndexKey(after.value.Name(), id)} else {})
    {
      var hex := Hex.Encode(id);
      if before.Some? {
        index := index - {before.value.Name() + ":" + hex};
      }
      if after.Some? {
        index := index + {after.value.Name() + ":" + hex};
      }
    }

    /** The keys of the index that start with a prefix. */
    method ScanPrefix(prefix: string) returns (keys: seq<string>)
      ensures Scanned(keys, index, prefix)
    {
      keys := [];
      var rest := index;
      while rest != {}
        invariant rest <= index
        invariant Scanned(keys, index - rest, prefix)
        decreases rest
      {
        var k :| k in rest;
        assert k !in keys;
        rest := rest - {k};
        if prefix <= k {
          keys := keys + [k];
        }
      }
      assert index - rest == index;
    }

    /** Decodes the identifier at the end of an index key and fetches its state. */
    method FollowKey(prefix: string, key: string) returns (r: Option<DlcState>)
      requires prefix <= key && (|key| - |prefix|) % 2 == 0
      ensures r == Filed(states, key[|prefix|..])
    {
      var bytes := Hex.Decode(key[|prefix|..]);
      if bytes.None? || |bytes.value| != 32 {
        return None;
      }
      r := Get(bytes.value);
    }

    /** Follows the index from a name to the states filed under it. */
    method ListByState(name: string) returns (results: seq<DlcState>)
      requires Valid()
      ensures Lists(results, View(), Named(View(), name))
    {
      var prefix := name + ":";
      var keys := ScanPrefix(prefix);
      results := [];
      assert keys[..0] == [];
      for i := 0 to |keys|
        invariant Lists(results, View(), Reached(View(), name, keys[..i]))
      {
        ghost var id := ScanMeetsNamed(View(), name, keys, i);
        FiledUnderOwnKey(states, name, id);
        var found := FollowKey(prefix, keys[i]);
        if found.Some? {
          ListsOneMore(results, View(), Reached(View(), name, keys[..i]), found.value);
          results := results + [found.value];
        }
      }
      assert keys[..|keys|] == keys;
      ScanMeetsAll(View(), name, keys);
    }

    method CountByState(name: string) returns (count: nat)
      requires Valid()
      ensures count == |Named(View(), name)|
    {
      var keys := ScanPrefix(name + ":");
      ScanLength(View(), name, keys, |keys|);
      assert keys[..|keys|] == keys;
      ScanMeetsAll(View(), name, keys);
      count := |keys|;
    }

    method ListAll() returns (results: seq<DlcState>)
      requires Valid()
      ensures Lists(results, View(), states.Keys)
    {
      results := [];
      var rest := states.Keys;
      while rest != {}
        invariant rest <= states.Keys
        invariant Lists(results, View(), states.Keys - rest)
        decreases rest
      {
        var id :| id in rest;
        ListsOneMore(results, View(), states.Keys - rest, states[id]);
        results := results + [states[id]];
        rest := rest - {id};
        assert states.Keys - rest == (states.Keys - (rest + {id})) + {id};
      }
      assert states.Keys - rest == states.Keys;
    }
  }
}
