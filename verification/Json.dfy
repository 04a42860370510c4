/** JSON trees: what the HTTP boundary hands over and what the JSONB column stores.
    An object is a map, because neither Python's `==` nor JSONB sees the order of keys. */
module Json {
  datatype JSON =
    | Null
    | Bool(b: bool)
    | Int(n: int)
    | Float(x: real)
    | Str(s: string)
    | List(items: seq<JSON>)
    | Obj(fields: map<string, JSON>)

  const NUL: char := '\0'

  /** No string and no key anywhere in the tree holds a NUL. */
  predicate NulFree(v: JSON) {
    match v
    case Str(s) => NUL !in s
    case List(items) => forall i :: 0 <= i < |items| ==> NulFree(items[i])
    case Obj(fields) => forall k :: k in fields ==> NUL !in k && NulFree(fields[k])
    case _ => true
  }

  datatype PathStep = Key(key: string) | Index(index: nat)

  type Path = seq<PathStep>

  /** The paths at which a NUL sits, as a string value or as the key that ends the path. */
  ghost function NulPaths(v: JSON, path: Path): set<Path> {
    match v
    case Str(s) => if NUL in s then {path} else {}
    case List(items) => set i, p | 0 <= i < |items| && p in NulPaths(items[i], path + [Index(i)]) :: p
    case Obj(fields) =>
      (set k | k in fields && NUL in k :: path + [Key(k)])
      + (set k, p | k in fields && p in NulPaths(fields[k], path + [Key(k)]) :: p)
    case _ => {}
  }

  lemma {:induction false} NulPathsDecideNulFree(v: JSON, path: Path)
    ensures NulPaths(v, path) == {} <==> NulFree(v)
    decreases v
  {
    match v
    case List(items) =>
      forall i | 0 <= i < |items| ensures NulPaths(items[i], path + [Index(i)]) == {} <==> NulFree(items[i]) {
        NulPathsDecideNulFree(items[i], path + [Index(i)]);
      }
      if i :| 0 <= i < |items| && !NulFree(items[i]) {
        var p :| p in NulPaths(items[i], path + [Index(i)]);
        assert p in NulPaths(v, path);
      }
    case Obj(fields) =>
      forall k | k in fields ensures NulPaths(fields[k], path + [Key(k)]) == {} <==> NulFree(fields[k]) {
        NulPathsDecideNulFree(fields[k], path + [Key(k)]);
      }
      if k :| k in fields && NUL in k {
        assert path + [Key(k)] in NulPaths(v, path);
      }
      if k :| k in fields && !NulFree(fields[k]) {
        var p :| p in NulPaths(fields[k], path + [Key(k)]);
        assert p in NulPaths(v, path);
      }
    case _ =>
  }

  /** The character kept out is the one with code 0. */
  lemma NulFreeExactly(s: string)
    ensures NulFree(Str(s)) <==> forall i :: 0 <= i < |s| ==> s[i] as int != 0
  {
  }
}
