/**
 Script values as the parsers see them.  Reading a property fails only on undefined and null; an absent
 property reads as undefined.  Numbers are reals, and the characters of a string stand for its bytes.
 */
module Javascript {
  import opened Integers
  import opened Wrappers

  datatype Js =
    | Undefined
    | Null
    | Bool(b: bool)
    | Num(n: real)
    | Str(s: string)
    | Arr(elements: seq<Js>)
    | Obj(fields: map<string, Js>)

  function Property(o: Js, name: string): (p: Option<Js>)
    ensures p.None? <==> o == Undefined || o == Null
    ensures o.Obj? && name in o.fields ==> p == Some(o.fields[name])
    ensures o != Undefined && o != Null && !(o.Obj? && name in o.fields) ==> p == Some(Undefined)
  {
    match o
    case Undefined => None
    case Null => None
    case Obj(fields) => if name in fields then Some(fields[name]) else Some(Undefined)
    case _ => Some(Undefined)
  }

  function Truncate(x: real): int {
    if x >= 0.0 then x.Floor else -((-x).Floor)
  }

  /** The fraction is dropped: the whole number between 0 and x that is nearest to x. */
  lemma TruncateDropsTheFraction(x: real)
    ensures x >= 0.0 ==> 0.0 <= Truncate(x) as real <= x < (Truncate(x) + 1) as real
    ensures x <= 0.0 ==> (Truncate(x) - 1) as real < x <= Truncate(x) as real <= 0.0
  {
    assert x.Floor as real <= x < (x.Floor + 1) as real;
    assert (-x).Floor as real <= -x < ((-x).Floor + 1) as real;
  }

  /** Wraps around outside 32 bits. */
  function NumberToInt32(x: real): (i: int32)
    ensures exists k :: i == Truncate(x) + k * TWO_TO_32
  {
    var t, i := Truncate(x), ToInt32(Truncate(x));
    assert i == t + (-(t / TWO_TO_32)) * TWO_TO_32 || i == t + (-(t / TWO_TO_32) - 1) * TWO_TO_32;
    i
  }

  /** Stays at the ends of the range outside 64 bits. */
  function NumberToInt64(x: real): (i: int64)
    ensures -TWO_TO_63 <= Truncate(x) < TWO_TO_63 ==> i == Truncate(x)
    ensures Truncate(x) < -TWO_TO_63 ==> i == -TWO_TO_63
    ensures Truncate(x) >= TWO_TO_63 ==> i == TWO_TO_63 - 1
  {
    var t := Truncate(x);
    if t < -TWO_TO_63 then -TWO_TO_63 else if t >= TWO_TO_63 then TWO_TO_63 - 1 else t
  }

  lemma WholeNumbersStay(i: int)
    ensures Truncate(i as real) == i
    ensures -TWO_TO_31 <= i < TWO_TO_31 ==> NumberToInt32(i as real) == i
  {
    assert (i as real).Floor == i;
    assert (-(i as real)) == (-i) as real;
    assert ((-i) as real).Floor == -i;
  }

  function NumberOf(o: Js, name: string): Option<real> {
    match Property(o, name)
    case Some(Num(n)) => Some(n)
    case _ => None
  }

  function IntOf(o: Js, name: string): Option<int> {
    match Property(o, name)
    case Some(Num(n)) => Some(NumberToInt32(n))
    case _ => None
  }

  function Int64Of(o: Js, name: string): Option<int> {
    match Property(o, name)
    case Some(Num(n)) => Some(NumberToInt64(n))
    case _ => None
  }

  // ---------- strings ----------

  const MAX_BUF_LEN := 512

  /** What a C string of these characters holds. */
  function BeforeNul(s: string): (r: string)
    ensures r <= s && '\0' !in r
    ensures |r| < |s| ==> s[|r|] == '\0'
  {
    if s == [] || s[0] == '\0' then [] else [s[0]] + BeforeNul(s[1..])
  }

  function Text(s: string): (r: string)
    ensures r <= s && |r| <= MAX_BUF_LEN && '\0' !in r
    ensures |r| < |s| ==> |r| == MAX_BUF_LEN || s[|r|] == '\0'
  {
    BeforeNul(if |s| <= MAX_BUF_LEN then s else s[..MAX_BUF_LEN])
  }

  function TextOf(o: Js, name: string): Option<string> {
    match Property(o, name)
    case Some(Str(s)) => Some(Text(s))
    case _ => None
  }

  // ---------- lists ----------

  function First(elements: seq<Js>, n: nat): (r: seq<Js>)
    ensures r <= elements && |r| == if |elements| <= n then |elements| else n
  {
    if |elements| <= n then elements else elements[..n]
  }

  /** The values of the elements that parse, in their order. */
  function Collect<T>(elements: seq<Js>, parse: Js -> Option<T>): seq<T> {
    if elements == [] then []
    else
      var n := |elements| - 1;
      var before := Collect(elements[..n], parse);
      match parse(elements[n])
      case Some(value) => before + [value]
      case None => before
  }

  /** The values of the elements, if all of them parse. */
  function All<T>(elements: seq<Js>, parse: Js -> Option<T>): Option<seq<T>> {
    if forall i :: 0 <= i < |elements| ==> parse(elements[i]).Some? then
      Some(seq(|elements|, i requires 0 <= i < |elements| && parse(elements[i]).Some? => parse(elements[i]).value))
    else None
  }

  lemma AllParse<T>(elements: seq<Js>, parse: Js -> Option<T>, values: seq<T>)
    requires |values| == |elements|
    requires forall i :: 0 <= i < |elements| ==> parse(elements[i]) == Some(values[i])
    ensures All(elements, parse) == Some(values)
  {
    var all := All(elements, parse);
    assert all.Some? && all.value == values;
  }

  /** The positions of the elements that `Collect` takes. */
  function Taken<T>(elements: seq<Js>, parse: Js -> Option<T>): seq<nat> {
    if elements == [] then []
    else
      var n := |elements| - 1;
      var before := Taken(elements[..n], parse);
      if parse(elements[n]).Some? then before + [n] else before
  }

  /** `Collect` takes values of elements that parse, in order ... */
  lemma {:induction false} CollectIsInOrder<T>(elements: seq<Js>, parse: Js -> Option<T>)
    ensures
      var taken := Taken(elements, parse);
      && |taken| == |Collect(elements, parse)|
      && (forall i, j :: 0 <= i < j < |taken| ==> taken[i] < taken[j])
      && (forall i :: 0 <= i < |taken| ==>
        taken[i] < |elements| && parse(elements[taken[i]]) == Some(Collect(elements, parse)[i]))
  {
    if elements == [] {
    } else {
      var n := |elements| - 1;
      CollectIsInOrder(elements[..n], parse);
      assert parse(elements[n]).Some? ==>
        && Collect(elements, parse) == Collect(elements[..n], parse) + [parse(elements[n]).value]
        && Taken(elements, parse) == Taken(elements[..n], parse) + [n];
    }
  }

  /** ... and all of them. */
  lemma {:induction false} CollectTakesAll<T>(elements: seq<Js>, parse: Js -> Option<T>, k: nat)
    requires k < |elements| && parse(elements[k]).Some?
    ensures k in Taken(elements, parse)
  {
    if k < |elements| - 1 {
      CollectTakesAll(elements[..|elements| - 1], parse, k);
    }
  }

  lemma {:induction false} CollectOfAll<T>(elements: seq<Js>, parse: Js -> Option<T>, values: seq<T>)
    requires |values| == |elements|
    requires forall i :: 0 <= i < |elements| ==> parse(elements[i]) == Some(values[i])
    ensures Collect(elements, parse) == values
  {
    if elements == [] {
    } else {
      var n := |elements| - 1;
      CollectOfAll(elements[..n], parse, values[..n]);
      assert values == values[..n] + [values[n]];
    }
  }
}
