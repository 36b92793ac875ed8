/** The JavaScript values that JSON.parse can produce (plus `undefined`), and the three
    pieces of JavaScript semantics the routes rely on: truthiness, property access, and
    conversion to a string. */
module Js {
  import opened Wrappers
  import opened Text

  /** A JavaScript value. Numbers are integral (see Num). Objects are their own
      enumerable properties. */
  datatype JsValue =
    | Undefined
    | Null
    | Bool(b: bool)
    | Num(n: int)
    | Str(s: string)
    | Arr(items: seq<JsValue>)
    | Obj(fields: map<string, JsValue>)

  /** The exception a property read or method call raises on the wrong kind of value. */
  datatype Thrown = TypeError

  /** `!!v`: false exactly for undefined, null, false, 0 and the empty string. */
  predicate Truthy(v: JsValue) {
    match v
    case Undefined => false
    case Null => false
    case Bool(b) => b
    case Num(n) => n != 0
    case Str(s) => s != ""
    case Arr(_) => true
    case Obj(_) => true
  }

  /** `v || null`. */
  function OrNull(v: JsValue): JsValue {
    if Truthy(v) then v else Null
  }

  /** `v.key` for a data property: reading any property of null or undefined throws;
      strings and arrays have `length`; objects have their own keys; every other read
      yields undefined. */
  function Member(v: JsValue, key: string): Result<JsValue, Thrown> {
    match v
    case Undefined => Err(TypeError)
    case Null => Err(TypeError)
    case Str(s) => Ok(if key == "length" then Num(|s|) else Undefined)
    case Arr(items) => Ok(if key == "length" then Num(|items|) else Undefined)
    case Obj(fields) => Ok(if key in fields then fields[key] else Undefined)
    case _ => Ok(Undefined)
  }

  /** `String(v)`, as a template literal `${v}` computes it. An object with its own
      `toString` key throws: JSON cannot make that key callable, so the key hides
      Object.prototype.toString, and `valueOf` returns the object itself, which is not a
      primitive. An array converts as `join(',')`. */
  function ToStr(v: JsValue): Result<string, Thrown> {
    match v
    case Undefined => Ok("undefined")
    case Null => Ok("null")
    case Bool(b) => Ok(if b then "true" else "false")
    case Num(n) => Ok(IntToDecimal(n))
    case Str(s) => Ok(s)
    case Arr(items) => Join(items, ",")
    case Obj(fields) => if "toString" in fields then Err(TypeError) else Ok("[object Object]")
  }

  /** `items.join(sep)`: null and undefined elements contribute the empty string; the
      other elements are converted with String(v), and the join throws when one of them
      does. */
  function Join(items: seq<JsValue>, sep: string): Result<string, Thrown> {
    if items == [] then Ok("")
    else
      var last := items[|items| - 1];
      var piece :- if last.Null? || last.Undefined? then Ok("") else ToStr(last);
      if |items| == 1 then Ok(piece)
      else
        var init :- Join(items[..|items| - 1], sep);
        Ok(init + sep + piece)
  }

  /** Whether `items.join(sep)` has an element whose conversion throws. */
  predicate HasUnprintable(items: seq<JsValue>) {
    exists i :: 0 <= i < |items| && !items[i].Null? && !items[i].Undefined? && ToStr(items[i]).Err?
  }

  /** Each value converted in turn, as a series of `${}` does; throws at the first value
      whose conversion throws. */
  function ToStrAll(vs: seq<JsValue>): (r: Result<seq<string>, Thrown>)
    ensures r.Ok? <==> forall i :: 0 <= i < |vs| ==> ToStr(vs[i]).Ok?
    ensures r.Ok? ==> |r.value| == |vs| && forall i :: 0 <= i < |vs| ==> r.value[i] == ToStr(vs[i]).value
  {
    if vs == [] then Ok([])
    else
      var first :- ToStr(vs[0]);
      var rest :- ToStrAll(vs[1..]);
      assert forall i :: 1 <= i < |vs| ==> vs[i] == vs[1..][i - 1];
      Ok([first] + rest)
  }

  lemma {:induction false} OrNullFacts(v: JsValue)
    ensures Truthy(v) ==> OrNull(v) == v
    ensures !Truthy(v) ==> OrNull(v) == Null
    ensures OrNull(OrNull(v)) == OrNull(v)
  {
  }

  /** Property reads fail exactly on null and undefined. */
  lemma {:induction false} MemberThrows(v: JsValue, key: string)
    ensures Member(v, key).Err? <==> (v.Null? || v.Undefined?)
  {
  }

  /** Which conversions throw: exactly objects with their own `toString` key, and arrays
      with such an element somewhere inside. */
  lemma {:induction false} ToStrThrows(v: JsValue)
    ensures v.Obj? ==> (ToStr(v).Err? <==> "toString" in v.fields)
    ensures v.Arr? ==> (ToStr(v).Err? <==> HasUnprintable(v.items))
    ensures !v.Obj? && !v.Arr? ==> ToStr(v).Ok?
  {
    if v.Arr? {
      JoinThrows(v.items, ",");
    }
  }

  /** A join throws exactly when one of its non-null, non-undefined elements does. */
  lemma {:induction false} JoinThrows(items: seq<JsValue>, sep: string)
    ensures Join(items, sep).Err? <==> HasUnprintable(items)
  {
    if items != [] {
      var n := |items| - 1;
      var init := items[..n];
      JoinThrows(init, sep);
      assert forall i :: 0 <= i < n ==> init[i] == items[i];
      if HasUnprintable(init) {
        var i :| 0 <= i < n && !init[i].Null? && !init[i].Undefined? && ToStr(init[i]).Err?;
        assert !items[i].Null? && !items[i].Undefined? && ToStr(items[i]).Err?;
      }
      if HasUnprintable(items) && !HasUnprintable(init) {
        var i :| 0 <= i < |items| && !items[i].Null? && !items[i].Undefined? && ToStr(items[i]).Err?;
        assert i == n;
      }
    }
  }

  /** A number interpolated into a string can be read back as the same number. */
  lemma {:induction false} NumToStrRoundTrip(n: int)
    ensures ToStr(Num(n)).Ok? && ParseInt(ToStr(Num(n)).value) == Some(n)
  {
    IntToDecimalRoundTrip(n);
  }

  /** Joining strings with the empty separator is their concatenation. */
  lemma {:induction false} JoinStrings(items: seq<JsValue>, words: seq<string>)
    requires |items| == |words|
    requires forall i :: 0 <= i < |items| ==> items[i] == Str(words[i])
    ensures Join(items, "") == Ok(Concat(words))
  {
    if items != [] {
      var n := |items| - 1;
      JoinStrings(items[..n], words[..n]);
      ConcatSnoc(words[..n], words[n]);
      assert words[..n] + [words[n]] == words;
      assert ToStr(items[n]) == Ok(words[n]);
      if n == 0 {
        assert Join(items, "") == Ok(words[0]);
        assert words[1..] == [];
        assert Concat(words) == words[0] + "";
        assert words[0] + "" == words[0];
      } else {
        assert Join(items, "") == Ok(Concat(words[..n]) + "" + words[n]);
        assert Concat(words[..n]) + "" == Concat(words[..n]);
      }
    }
  }

  /** The concatenation of a list of strings. */
  function Concat(words: seq<string>): string {
    if words == [] then "" else words[0] + Concat(words[1..])
  }

  lemma {:induction false} ConcatAppend(a: seq<string>, b: seq<string>)
    ensures Concat(a + b) == Concat(a) + Concat(b)
  {
    if a == [] {
      assert a + b == b;
    } else {
      assert (a + b)[1..] == a[1..] + b;
      ConcatAppend(a[1..], b);
    }
  }

  lemma {:induction false} ConcatSnoc(a: seq<string>, w: string)
    ensures Concat(a + [w]) == Concat(a) + w
  {
    ConcatAppend(a, [w]);
  }
}
