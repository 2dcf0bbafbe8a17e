/**
  The loops of flitrpc--read-array, flitrpc--read-map, flitrpc--write-array and
  flitrpc--write-plist, proved against the recursive definitions.
 */
module MsgpackLoops {
  import opened Bytes
  import opened Msgpack
  import opened Options

  function Vector(r: Read<seq<Value>>): Read<Value> {
    if r.Fail? then Fail else Got(Arr(r.value), r.used)
  }

  function Dictionary(r: Read<seq<Pair>>): Read<Value> {
    if r.Fail? then Fail else Got(Plist(r.value), r.used)
  }

  /** The rest of a read, after vs were read from k bytes. */
  function After<T>(vs: seq<T>, k: nat, r: Read<seq<T>>): Read<seq<T>> {
    if r.Fail? then Fail else Got(vs + r.value, k + r.used)
  }

  /** Of the count items announced, vs are read and took the first k bytes. */
  ghost predicate ItemsSoFar(s: bytes, count: nat, vs: seq<Value>, k: nat) {
    |vs| <= count && ReadItems(s, count) == After(vs, k, ReadItems(From(s, k), count - |vs|))
  }

  ghost predicate PairsSoFar(s: bytes, count: nat, ps: seq<Pair>, k: nat) {
    |ps| <= count && ReadPairs(s, count) == After(ps, k, ReadPairs(From(s, k), count - |ps|))
  }

  lemma ItemsStart(s: bytes, count: nat)
    ensures ItemsSoFar(s, count, [], 0) && PairsSoFar(s, count, [], 0)
  {
    hide Decode, ReadPair;
    assert From(s, 0) == s;
    assert forall vs: seq<Value> :: [] + vs == vs;
    assert forall ps: seq<Pair> :: [] + ps == ps;
  }

  lemma NextItem(s: bytes, count: nat, vs: seq<Value>, k: nat)
    requires ItemsSoFar(s, count, vs, k)
    ensures |vs| == count ==> ReadItems(s, count) == Got(vs, k)
    ensures |vs| < count ==>
              match Decode(From(s, k))
              case Fail => ReadItems(s, count).Fail?
              case Got(v, u) => ItemsSoFar(s, count, vs + [v], k + u)
  {
    hide Decode;
    assert vs + [] == vs;
    if |vs| < count && Decode(From(s, k)).Got? {
      var v, u := Decode(From(s, k)).value, Decode(From(s, k)).used;
      assert From(From(s, k), u) == From(s, k + u);
      assert forall ws: seq<Value> :: vs + ([v] + ws) == (vs + [v]) + ws;
    }
  }

  lemma NextPair(s: bytes, count: nat, ps: seq<Pair>, k: nat)
    requires PairsSoFar(s, count, ps, k)
    ensures |ps| == count ==> ReadPairs(s, count) == Got(ps, k)
    ensures |ps| < count ==>
              match ReadPair(From(s, k))
              case Fail => ReadPairs(s, count).Fail?
              case Got(p, u) => PairsSoFar(s, count, ps + [p], k + u)
  {
    hide ReadPair;
    assert ps + [] == ps;
    if |ps| < count && ReadPair(From(s, k)).Got? {
      var p, u := ReadPair(From(s, k)).value, ReadPair(From(s, k)).used;
      assert From(From(s, k), u) == From(s, k + u);
      assert forall qs: seq<Pair> :: ps + ([p] + qs) == (ps + [p]) + qs;
    }
  }

  method ReadArray(s: bytes, count: nat) returns (r: Read<Value>)
    ensures r == Vector(ReadItems(s, count))
  {
    hide Decode, ReadItems, ItemsSoFar;
    var result := new Value[count];
    var pos: nat, i := 0, 0;
    ItemsStart(s, count);
    while i < count
      invariant 0 <= i <= count
      invariant ItemsSoFar(s, count, result[..i], pos)
    {
      NextItem(s, count, result[..i], pos);
      var pair := Decode(From(s, pos));
      if pair.Fail? {
        return Fail;
      }
      ghost var before := result[..i];
      result[i] := pair.value;
      assert result[..i + 1] == before + [pair.value];
      pos, i := pos + pair.used, i + 1;
    }
    assert result[..count] == result[..];
    NextItem(s, count, result[..], pos);
    return Got(Arr(result[..]), pos);
  }

  method ReadMap(s: bytes, count: nat) returns (r: Read<Value>)
    ensures r == Dictionary(ReadPairs(s, count))
  {
    hide Decode, ReadPairs, PairsSoFar, KeyName;
    var result: seq<Pair>, pos: nat, i := [], 0, 0;
    ghost var read: seq<Pair> := [];
    ItemsStart(s, count);
    while i < count
      invariant 0 <= i <= count && |read| == i
      invariant result == PutAll(read)
      invariant PairsSoFar(s, count, read, pos)
    {
      NextPair(s, count, read, pos);
      var keyPair := Decode(From(s, pos));
      if keyPair.Fail? || KeyName(keyPair.value).None? {
        return Fail;
      }
      var valPair := Decode(From(From(s, pos), keyPair.used));
      if valPair.Fail? {
        return Fail;
      }
      var key := KeyName(keyPair.value).value;
      ghost var pair := Pair(key, valPair.value);
      assert (read + [pair])[..i] == read;
      result, read := Put(result, key, valPair.value), read + [pair];
      pos, i := pos + (keyPair.used + valPair.used), i + 1;
    }
    NextPair(s, count, read, pos);
    return Got(if result == [] then Nil else Map(result), pos);
  }

  method WriteArray(items: seq<Value>) returns (r: Option<bytes>)
    ensures r == Write(Arr(items))
  {
    var out := ArrHead(|items|);
    var i := 0;
    while i < |items|
      invariant 0 <= i <= |items|
      invariant Append(Some(out), WriteAll(items[i..])) == Write(Arr(items))
    {
      var part := Write(items[i]);
      assert items[i..][1..] == items[i + 1..];
      if part.None? {
        return None;
      }
      AppendAppend(out, part.value, WriteAll(items[i + 1..]));
      out, i := out + part.value, i + 1;
    }
    assert out + [] == out;
    return Some(out);
  }

  method WritePlist(pairs: seq<Pair>) returns (r: Option<bytes>)
    requires pairs != [] && pairs[0].key != BIN_KEY
    ensures r == Write(Map(pairs))
  {
    var out := PlistHead(|pairs|);
    var i := 0;
    while i < |pairs|
      invariant 0 <= i <= |pairs|
      invariant Append(Some(out), WritePairs(pairs[i..])) == Write(Map(pairs))
    {
      var key, value := WriteStr(pairs[i].key), Write(pairs[i].value);
      assert pairs[i..][1..] == pairs[i + 1..];
      if value.None? {
        return None;
      }
      AppendAppend(out, key + value.value, WritePairs(pairs[i + 1..]));
      out, i := out + (key + value.value), i + 1;
    }
    assert out + [] == out;
    return Some(out);
  }

  lemma AppendAppend(a: bytes, b: bytes, c: Option<bytes>)
    ensures Append(Some(a), Append(Some(b), c)) == Append(Some(a + b), c)
  {
    if c.Some? {
      assert a + (b + c.value) == a + b + c.value;
    }
  }
}
