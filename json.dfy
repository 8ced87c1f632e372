/** A minimal model of the JSON-shaped Python values (dicts, lists, strings and
    numbers) that the offline transcription client builds before `json.dump`
    writes them out. */
module Json {

  datatype Option<+T> = None | Some(value: T)

  /** A JSON value. `N` stands for the floating-point numbers (confidences,
      times) the client only copies and never computes with, so nothing about
      them is assumed. Python ints are kept apart as `JInt`.
      An object is the ordered list of its members: a Python dict keeps the
      order in which its keys were written. */
  datatype Json<N> =
    | JString(str: string)
    | JNum(num: N)
    | JInt(integer: int)
    | JArray(items: seq<Json<N>>)
    | JObject(members: seq<(string, Json<N>)>)

  /** Looking up `key` in a list of members: the first member with that name. */
  function Lookup<N>(members: seq<(string, Json<N>)>, key: string): Option<Json<N>>
  {
    if members == [] then None
    else if members[0].0 == key then Some(members[0].1)
    else Lookup(members[1..], key)
  }

  /** `j[key]` in Python: defined on objects that hold `key`. */
  function Get<N>(j: Json<N>, key: string): Option<Json<N>>
  {
    if j.JObject? then Lookup(j.members, key) else None
  }

  /** Looking up the member at position `i` finds its value when no earlier
      member has the same name. */
  lemma {:induction false} LookupAt<N>(members: seq<(string, Json<N>)>, i: nat)
    requires i < |members|
    requires forall m :: 0 <= m < i ==> members[m].0 != members[i].0
    ensures Lookup(members, members[i].0) == Some(members[i].1)
  {
    if i > 0 {
      LookupAt(members[1..], i - 1);
    }
  }

  /** One step of a path into a document: a dict key or a list index. */
  datatype Step = Key(name: string) | Index(pos: nat)

  function StepInto<N>(j: Json<N>, s: Step): Option<Json<N>>
  {
    match s
    case Key(k) => Get(j, k)
    case Index(n) => if j.JArray? && n < |j.items| then Some(j.items[n]) else None
  }

  /** The value reached from `j` by following `path`, e.g.
      `doc["results"][i]["alternatives"]` is `At(doc, [Key("results"), Index(i), Key("alternatives")])`. */
  function At<N>(j: Json<N>, path: seq<Step>): Option<Json<N>>
    decreases |path|
  {
    if path == [] then Some(j)
    else
      match StepInto(j, path[0])
      case None => None
      case Some(v) => At(v, path[1..])
  }

  /** Following `p + q` is following `p`, then `q` from where `p` ends. */
  lemma {:induction false} AtAppend<N>(j: Json<N>, p: seq<Step>, q: seq<Step>)
    ensures At(j, p + q) == match At(j, p) case None => None case Some(v) => At(v, q)
    decreases |p|
  {
    if p == [] {
      assert p + q == q;
    } else {
      assert (p + q)[0] == p[0];
      assert (p + q)[1..] == p[1..] + q;
      match StepInto(j, p[0])
      case None =>
      case Some(v) =>
        AtAppend(v, p[1..], q);
    }
  }

  /** The length of the list reached, or -1 when nothing, or no list, is there. */
  function ArrayLength<N>(o: Option<Json<N>>): int
  {
    if o.Some? && o.value.JArray? then |o.value.items| else -1
  }

  /** The value of member number `i` of object `j` when that member is named `key`. */
  function MemberAt<N>(j: Json<N>, i: nat, key: string): Option<Json<N>>
  {
    if j.JObject? && i < |j.members| && j.members[i].0 == key then Some(j.members[i].1) else None
  }

  /** Applies `f` to every element, failing if it fails on any one of them. */
  function Traverse<A, B>(xs: seq<A>, f: A -> Option<B>): Option<seq<B>>
  {
    if xs == [] then Some([])
    else
      match (f(xs[0]), Traverse(xs[1..], f))
      case (Some(y), Some(ys)) => Some([y] + ys)
      case _ => None
  }

  /** `Traverse` succeeds with `ys` exactly when `f` succeeds elementwise with `ys`. */
  lemma {:induction false} TraverseSome<A, B>(xs: seq<A>, f: A -> Option<B>, ys: seq<B>)
    ensures Traverse(xs, f) == Some(ys)
        <==> |ys| == |xs| && forall i :: 0 <= i < |xs| ==> f(xs[i]) == Some(ys[i])
  {
    if xs != [] {
      if ys != [] {
        TraverseSome(xs[1..], f, ys[1..]);
        assert ys == [ys[0]] + ys[1..];
        if |ys| == |xs| && forall i :: 0 <= i < |xs| ==> f(xs[i]) == Some(ys[i]) {
          assert forall i :: 0 <= i < |xs[1..]| ==> f(xs[1..][i]) == Some(ys[1..][i]) by {
            forall i | 0 <= i < |xs[1..]| ensures f(xs[1..][i]) == Some(ys[1..][i]) {
              assert xs[1..][i] == xs[i + 1];
            }
          }
        }
      } else {
        match (f(xs[0]), Traverse(xs[1..], f))
        case (Some(y), Some(zs)) =>
        case _ =>
      }
    }
  }

  /** When `dec` undoes `enc` and accepts nothing else, `Traverse(bs, dec)`
      undoes the list `enc` builds elementwise and accepts nothing else. */
  lemma TraverseInverse<A, B>(enc: A -> B, dec: B -> Option<A>, bs: seq<B>, xs: seq<A>)
    requires forall b, x :: dec(b) == Some(x) <==> b == enc(x)
    ensures Traverse(bs, dec) == Some(xs) <==> bs == seq(|xs|, i requires 0 <= i < |xs| => enc(xs[i]))
  {
    TraverseSome(bs, dec, xs);
    var image := seq(|xs|, i requires 0 <= i < |xs| => enc(xs[i]));
    if Traverse(bs, dec) == Some(xs) {
      assert bs == image;
    }
    if bs == image {
      assert forall i :: 0 <= i < |bs| ==> dec(bs[i]) == Some(xs[i]);
    }
  }
}
