/** Cache keys: how an object becomes the "namespace/name" key the work queues
    carry, and how a key is split back when a reconciliation starts. */
module Keys {
  import opened Api

  datatype KeyResult = KeyOk(key: string) | KeyErr(err: Err)
  datatype SplitResult = Split(namespace: string, name: string) | SplitErr(err: Err)

  /** The key of an object with metadata: "namespace/name", or the bare name in the empty namespace. */
  function MetaKey(m: Meta): (k: string)
    ensures m.namespace == "" ==> k == m.name
    ensures m.namespace != "" ==> k == m.namespace + "/" + m.name
  {
    if |m.namespace| > 0 then m.namespace + "/" + m.name else m.name
  }

  function MetaOf(obj: Obj): Option<Meta>
  {
    match obj
    case EventObj(e) => Some(e.meta)
    case PipeObj(p) => Some(p.meta)
    case FlowObj(f) => Some(f.meta)
    case JobObj(j) => Some(j.meta)
    case _ => None
  }

  /** The key of any handler object: a tombstone carries its own key; an object without metadata has none. */
  function DeletionHandlingKey(obj: Obj): (r: KeyResult)
    ensures obj.Tombstone? ==> r == KeyOk(obj.key)
    ensures !obj.Tombstone? && MetaOf(obj).Some? ==> r == KeyOk(MetaKey(MetaOf(obj).value))
    ensures obj.OtherObj? ==> r.KeyErr?
  {
    match obj
    case Tombstone(key, _) => KeyOk(key)
    case _ =>
      match MetaOf(obj)
      case Some(m) => KeyOk(MetaKey(m))
      case None => KeyErr(Err("object has no meta"))
  }

  function IndexOf(s: string, c: char): (r: Option<nat>)
    ensures r.None? <==> c !in s
    ensures r.Some? ==> r.value < |s| && s[r.value] == c && c !in s[..r.value]
  {
    if s == [] then None
    else if s[0] == c then Some(0)
    else
      match IndexOf(s[1..], c)
      case None => None
      case Some(i) => assert s[..i + 1] == [s[0]] + s[1..][..i]; Some(i + 1)
  }

  /** Splits "namespace/name" or "name"; a key with more than one '/' is malformed. */
  function SplitKey(key: string): (r: SplitResult)
    ensures '/' !in key ==> r == Split("", key)
    ensures r.Split? ==> '/' !in r.namespace && '/' !in r.name
  {
    match IndexOf(key, '/')
    case None => Split("", key)
    case Some(i) =>
      if '/' in key[i + 1..] then SplitErr(Err("unexpected key format: " + key))
      else Split(key[..i], key[i + 1..])
  }

  /** Splitting the key of an object gives back its namespace and name. */
  lemma {:induction false} SplitMetaKey(m: Meta)
    requires '/' !in m.namespace && '/' !in m.name
    ensures SplitKey(MetaKey(m)) == Split(m.namespace, m.name)
  {
    if m.namespace != "" {
      var k := m.namespace + "/" + m.name;
      var i := |m.namespace|;
      assert k[..i] == m.namespace;
      assert k[i] == '/';
      assert k[i + 1..] == m.name;
      assert IndexOf(k, '/') == Some(i);
    }
  }

  /** A key with two or more separators is rejected. */
  lemma {:induction false} SplitRejectsTwoSeparators(a: string, b: string, c: string)
    requires '/' !in a
    ensures SplitKey(a + "/" + b + "/" + c).SplitErr?
  {
    var k := a + "/" + b + "/" + c;
    var i := |a|;
    assert k[..i] == a;
    assert k[i] == '/';
    assert IndexOf(k, '/') == Some(i);
    assert k[i + 1..][|b|] == '/';
  }
}
