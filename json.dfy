/**
 * The part of JavaScript objects and of `JSON.stringify`/`JSON.parse` that the credential
 * store relies on: flat records of strings, whole numbers and null, written to and read back
 * from browser storage.
 */
module Json {
  import opened Wrappers
  import opened Text

  /** A property value. `Undefined` exists only in memory: `JSON.stringify` drops such properties. */
  datatype Value = JString(s: string) | JNumber(n: nat) | JNull | Undefined

  /** A JavaScript object: its properties in insertion order. */
  type Object = seq<(string, Value)>

  /** What `JSON.parse` returns: an object, or a single string, number or null. */
  datatype Parsed = PObject(o: Object) | PValue(v: Value)

  /** The keys of `o`, in order. */
  function Keys(o: Object): (r: seq<string>)
    ensures |r| == |o| && forall i :: 0 <= i < |o| ==> r[i] == o[i].0
  {
    if o == [] then [] else [o[0].0] + Keys(o[1..])
  }

  lemma KeysConcat(a: Object, b: Object)
    ensures Keys(a + b) == Keys(a) + Keys(b)
  {
    assert forall i :: 0 <= i < |a + b| ==> Keys(a + b)[i] == (Keys(a) + Keys(b))[i];
  }

  predicate Distinct(s: seq<string>) {
    forall i, j :: 0 <= i < j < |s| ==> s[i] != s[j]
  }

  lemma DistinctCons(x: string, s: seq<string>)
    ensures Distinct([x] + s) <==> x !in s && Distinct(s)
  {
    var r := [x] + s;
    assert r[1..] == s;
    if Distinct(r) {
      forall i, j | 0 <= i < j < |s| ensures s[i] != s[j] {
        assert r[i + 1] == s[i] && r[j + 1] == s[j];
      }
      forall j | 0 <= j < |s| ensures s[j] != x {
        assert r[0] == x && r[j + 1] == s[j];
      }
    }
  }

  lemma DistinctAppend(s: seq<string>, x: string)
    requires Distinct(s) && x !in s
    ensures Distinct(s + [x])
  {
  }

  /** No key occurs twice: what every JavaScript object guarantees. */
  predicate DistinctKeys(o: Object) { Distinct(Keys(o)) }

  predicate HasKey(o: Object, k: string) { k in Keys(o) }

  /** `o[k]`, or None when `o` has no property `k`. */
  function Get(o: Object, k: string): (r: Option<Value>)
    ensures r.Some? <==> HasKey(o, k)
  {
    if o == [] then None
    else if o[0].0 == k then Some(o[0].1)
    else Get(o[1..], k)
  }

  /** `{...o, [k]: v}`: an existing property keeps its place and takes the new value; a new one goes last. */
  function Set(o: Object, k: string, v: Value): (r: Object)
    ensures Keys(r) == if HasKey(o, k) then Keys(o) else Keys(o) + [k]
  {
    if o == [] then [(k, v)]
    else if o[0].0 == k then
      assert Keys([(k, v)] + o[1..]) == [k] + Keys(o[1..]);
      [(k, v)] + o[1..]
    else
      var t := Set(o[1..], k, v);
      assert Keys([o[0]] + t) == [o[0].0] + Keys(t);
      [o[0]] + t
  }

  /** After `{...o, [k]: v}`, `k` reads `v` and every other property reads as before. */
  lemma {:induction false} SetGet(o: Object, k: string, v: Value, k': string)
    ensures Get(Set(o, k, v), k') == if k' == k then Some(v) else Get(o, k')
  {
    if o != [] && o[0].0 != k {
      SetGet(o[1..], k, v, k');
      assert Set(o, k, v)[1..] == Set(o[1..], k, v);
    } else if o != [] {
      assert Set(o, k, v)[1..] == o[1..];
    }
  }

  /** Setting a property keeps the keys distinct; a new key is appended at the end. */
  lemma {:induction false} SetKeys(o: Object, k: string, v: Value)
    requires DistinctKeys(o)
    ensures DistinctKeys(Set(o, k, v))
    ensures !HasKey(o, k) ==> Set(o, k, v) == o + [(k, v)]
  {
    if !HasKey(o, k) {
      DistinctAppend(Keys(o), k);
      if o != [] {
        assert Keys(o) == [o[0].0] + Keys(o[1..]);
        DistinctCons(o[0].0, Keys(o[1..]));
        SetKeys(o[1..], k, v);
        assert [o[0]] + (o[1..] + [(k, v)]) == o + [(k, v)];
      }
    }
  }

  /** What survives `JSON.stringify`: the properties whose value is not undefined, in order. */
  function Defined(o: Object): (r: Object)
    ensures forall i :: 0 <= i < |r| ==> r[i].1 != Undefined
  {
    if o == [] then []
    else (if o[0].1 == Undefined then [] else [o[0]]) + Defined(o[1..])
  }

  /** Dropping the undefined properties keeps the remaining keys distinct. */
  lemma {:induction false} DefinedKeys(o: Object)
    requires DistinctKeys(o)
    ensures forall k :: HasKey(Defined(o), k) ==> HasKey(o, k)
    ensures DistinctKeys(Defined(o))
  {
    if o != [] {
      assert Keys(o) == [o[0].0] + Keys(o[1..]);
      DistinctCons(o[0].0, Keys(o[1..]));
      DefinedKeys(o[1..]);
      var t := Defined(o[1..]);
      if o[0].1 != Undefined {
        assert Defined(o) == [o[0]] + t;
        assert Keys(Defined(o)) == [o[0].0] + Keys(t);
        assert HasKey(t, o[0].0) ==> HasKey(o[1..], o[0].0);
        assert o[0].0 !in Keys(t);
        DistinctCons(o[0].0, Keys(t));
        forall k | HasKey(Defined(o), k) ensures HasKey(o, k) {
          assert k == o[0].0 || HasKey(t, k);
          assert HasKey(t, k) ==> HasKey(o[1..], k);
        }
      } else {
        assert Defined(o) == t;
      }
    }
  }

  /** After `JSON.stringify`, an undefined property reads as absent and every other one as before. */
  lemma {:induction false} DefinedGet(o: Object, k: string)
    requires DistinctKeys(o)
    ensures Get(Defined(o), k) == if Get(o, k) == Some(Undefined) then None else Get(o, k)
  {
    if o != [] {
      assert Keys(o) == [o[0].0] + Keys(o[1..]);
      DistinctCons(o[0].0, Keys(o[1..]));
      DefinedKeys(o[1..]);
      DefinedGet(o[1..], k);
      var t := Defined(o[1..]);
      if o[0].1 != Undefined {
        assert Defined(o) == [o[0]] + t;
      } else {
        assert Defined(o) == t;
      }
    }
  }

  // Encoding. Every encoder takes the text `t` that follows, so no concatenation needs regrouping.

  /** `s` with '"' and '\' escaped by a backslash, followed by `t`. */
  function EscapeThen(s: string, t: string): (escaped: string) {
    if s == [] then t
    else (if s[0] == '"' || s[0] == '\\' then ['\\', s[0]] else [s[0]]) + EscapeThen(s[1..], t)
  }

  /** A string literal followed by `t`. */
  function QuoteThen(s: string, t: string): (quoted: string) {
    ['"'] + EscapeThen(s, ['"'] + t)
  }

  /** The JSON text of a defined value followed by `t`. */
  function ValueThen(v: Value, t: string): (printed: string)
    requires v != Undefined
  {
    match v
    case JString(s) => QuoteThen(s, t)
    case JNumber(n) => NatToString(n) + t
    case JNull => "null" + t
  }

  /** `"k":v` followed by `t`. */
  function MemberThen(m: (string, Value), t: string): (printed: string)
    requires m.1 != Undefined
  {
    QuoteThen(m.0, [':'] + ValueThen(m.1, t))
  }

  /** The members of a non-empty object of defined values, separated by ',' and followed by `t`. */
  function MembersThen(o: Object, t: string): (printed: string)
    requires |o| >= 1 && forall i :: 0 <= i < |o| ==> o[i].1 != Undefined
  {
    if |o| == 1 then MemberThen(o[0], t) else MemberThen(o[0], [','] + MembersThen(o[1..], t))
  }

  /** `JSON.stringify(o)`: properties whose value is undefined are left out. */
  function Stringify(o: Object): (json: string) {
    var d := Defined(o);
    if d == [] then "{}" else ['{'] + MembersThen(d, "}")
  }

  // Parsing. Each parser returns what it read and the text after it.

  /** The body of a string literal up to its closing '"', and what follows the quote. */
  function ParseStringBody(s: string): (r: Option<(string, string)>)
    ensures r.Some? ==> |r.value.1| < |s|
  {
    if s == [] then None
    else if s[0] == '"' then Some(([], s[1..]))
    else if s[0] == '\\' then
      if |s| >= 2 && (s[1] == '"' || s[1] == '\\') then
        match ParseStringBody(s[2..])
        case None => None
        case Some(p) => Some(([s[1]] + p.0, p.1))
      else None
    else
      match ParseStringBody(s[1..])
      case None => None
      case Some(p) => Some(([s[0]] + p.0, p.1))
  }

  /** The number of leading digits of `s`. */
  function DigitRun(s: string): (k: nat)
    ensures k <= |s| && AllDigits(s[..k])
    ensures k < |s| ==> !IsDigit(s[k])
  {
    if s == [] || !IsDigit(s[0]) then 0
    else
      var k := DigitRun(s[1..]);
      assert s[..k + 1] == [s[0]] + s[1..][..k];
      k + 1
  }

  /** A number literal: digits without a superfluous leading zero. */
  function ParseNumber(s: string): (r: Option<(nat, string)>)
    ensures r.Some? ==> |r.value.1| < |s|
  {
    var k := DigitRun(s);
    if k == 0 || (s[0] == '0' && k > 1) then None else Some((DigitsValue(s[..k]), s[k..]))
  }

  function ParseValue(s: string): (r: Option<(Value, string)>)
    ensures r.Some? ==> r.value.0 != Undefined && |r.value.1| < |s|
  {
    if s == [] then None
    else if s[0] == '"' then
      match ParseStringBody(s[1..])
      case None => None
      case Some(p) => Some((JString(p.0), p.1))
    else if |s| >= 4 && s[..4] == "null" then Some((JNull, s[4..]))
    else
      match ParseNumber(s)
      case None => None
      case Some(p) => Some((JNumber(p.0), p.1))
  }

  /** `"k":v`. */
  function ParseMember(s: string): (r: Option<((string, Value), string)>)
    ensures r.Some? ==> |r.value.1| < |s|
  {
    if s == [] || s[0] != '"' then None
    else
      match ParseStringBody(s[1..])
      case None => None
      case Some(key) =>
        var rest := key.1;
        if rest == [] || rest[0] != ':' then None
        else
          match ParseValue(rest[1..])
          case None => None
          case Some(val) => Some(((key.0, val.0), val.1))
  }

  /** Members up to the closing '}', each added to `acc` the way `JSON.parse` adds properties. */
  function ParseMembers(s: string, acc: Object): (r: Option<(Object, string)>)
    decreases |s|
  {
    match ParseMember(s)
    case None => None
    case Some(p) =>
      var acc' := Set(acc, p.0.0, p.0.1);
      var rest := p.1;
      if rest == [] then None
      else if rest[0] == ',' then ParseMembers(rest[1..], acc')
      else if rest[0] == '}' then Some((acc', rest[1..]))
      else None
  }

  /** `JSON.parse(s)`: None where it throws. */
  function Parse(s: string): (parsed: Option<Parsed>) {
    if s == "{}" then Some(PObject([]))
    else if s != [] && s[0] == '{' then
      match ParseMembers(s[1..], [])
      case Some(p) => if p.1 == [] then Some(PObject(p.0)) else None
      case None => None
    else
      match ParseValue(s)
      case Some(p) => if p.1 == [] then Some(PValue(p.0)) else None
      case None => None
  }

  // The round trip.

  lemma {:induction false} StringRoundTrip(s: string, t: string)
    ensures ParseStringBody(EscapeThen(s, ['"'] + t)) == Some((s, t))
  {
    if s == [] {
      assert (['"'] + t)[1..] == t;
    } else {
      var u := EscapeThen(s[1..], ['"'] + t);
      StringRoundTrip(s[1..], t);
      if s[0] == '"' || s[0] == '\\' {
        assert EscapeThen(s, ['"'] + t) == ['\\', s[0]] + u;
        assert (['\\', s[0]] + u)[2..] == u;
      } else {
        assert EscapeThen(s, ['"'] + t) == [s[0]] + u;
        assert ([s[0]] + u)[1..] == u;
      }
      assert [s[0]] + s[1..] == s;
    }
  }

  lemma {:induction false} DigitRunConcat(a: string, t: string)
    requires AllDigits(a)
    requires t == [] || !IsDigit(t[0])
    ensures DigitRun(a + t) == |a|
  {
    if a != [] {
      assert (a + t)[1..] == a[1..] + t;
      DigitRunConcat(a[1..], t);
    } else {
      assert a + t == t;
    }
  }

  lemma NumberRoundTrip(n: nat, t: string)
    requires t == [] || !IsDigit(t[0])
    ensures ParseNumber(NatToString(n) + t) == Some((n, t))
  {
    var d := NatToString(n);
    DigitRunConcat(d, t);
    assert (d + t)[..|d|] == d && (d + t)[|d|..] == t;
    ValueOfNatToString(n);
  }

  /** A text that may follow a value: nothing, or a separator. */
  predicate FollowsValue(t: string) {
    t == [] || t[0] == ',' || t[0] == '}'
  }

  lemma ValueRoundTrip(v: Value, t: string)
    requires v != Undefined && FollowsValue(t)
    ensures ParseValue(ValueThen(v, t)) == Some((v, t))
  {
    match v
    case JString(s) =>
      StringRoundTrip(s, t);
      assert ValueThen(v, t)[1..] == EscapeThen(s, ['"'] + t);
    case JNumber(n) =>
      NumberRoundTrip(n, t);
      assert ValueThen(v, t)[0] == NatToString(n)[0];
    case JNull =>
      assert ("null" + t)[..4] == "null" && ("null" + t)[4..] == t;
  }

  lemma MemberRoundTrip(m: (string, Value), t: string)
    requires m.1 != Undefined && FollowsValue(t)
    ensures ParseMember(MemberThen(m, t)) == Some((m, t))
  {
    var after := [':'] + ValueThen(m.1, t);
    StringRoundTrip(m.0, after);
    assert MemberThen(m, t)[1..] == EscapeThen(m.0, ['"'] + after);
    assert after[1..] == ValueThen(m.1, t);
    ValueRoundTrip(m.1, t);
  }

  /** Moving the first member of `o` into `acc` keeps the keys apart. */
  lemma ShiftMember(o: Object, acc: Object)
    requires |o| >= 1 && DistinctKeys(acc) && DistinctKeys(o)
    requires forall i :: 0 <= i < |o| ==> !HasKey(acc, o[i].0)
    ensures DistinctKeys(acc + [o[0]]) && DistinctKeys(o[1..])
    ensures forall i :: 0 <= i < |o[1..]| ==> !HasKey(acc + [o[0]], o[1..][i].0)
  {
    KeysConcat(acc, [o[0]]);
    assert Keys(acc + [o[0]]) == Keys(acc) + [o[0].0];
    DistinctAppend(Keys(acc), o[0].0);
    assert Keys(o) == [o[0].0] + Keys(o[1..]);
    DistinctCons(o[0].0, Keys(o[1..]));
    forall i | 0 <= i < |o[1..]| ensures !HasKey(acc + [o[0]], o[1..][i].0) {
      assert o[1..][i] == o[i + 1];
      assert Keys(o[1..])[i] == o[i + 1].0;
    }
  }

  lemma ShiftConcat(a: Object, b: Object)
    requires |b| >= 1
    ensures (a + [b[0]]) + b[1..] == a + b
  {
    assert [b[0]] + b[1..] == b;
  }

  lemma {:induction false} MembersRoundTrip(o: Object, acc: Object, t: string)
    requires |o| >= 1 && forall i :: 0 <= i < |o| ==> o[i].1 != Undefined
    requires DistinctKeys(acc) && DistinctKeys(o)
    requires forall i :: 0 <= i < |o| ==> !HasKey(acc, o[i].0)
    ensures ParseMembers(MembersThen(o, ['}'] + t), acc) == Some((acc + o, t))
    decreases |o|
  {
    SetKeys(acc, o[0].0, o[0].1);
    assert !HasKey(acc, o[0].0);
    var acc' := acc + [o[0]];
    assert Set(acc, o[0].0, o[0].1) == acc';
    if |o| == 1 {
      MemberRoundTrip(o[0], ['}'] + t);
      assert (['}'] + t)[1..] == t;
      assert acc' == acc + o;
    } else {
      var inner := MembersThen(o[1..], ['}'] + t);
      var s := MemberThen(o[0], [','] + inner);
      assert MembersThen(o, ['}'] + t) == s;
      MemberRoundTrip(o[0], [','] + inner);
      assert ([','] + inner)[1..] == inner;
      assert ParseMembers(s, acc) == ParseMembers(inner, acc');
      ShiftMember(o, acc);
      MembersRoundTrip(o[1..], acc', t);
      ShiftConcat(acc, o);
    }
  }

  lemma ParseObjectText(s: string, d: Object)
    requires s != "{}" && s != [] && s[0] == '{' && ParseMembers(s[1..], []) == Some((d, []))
    ensures Parse(s) == Some(PObject(d))
  {
  }

  /** `JSON.parse(JSON.stringify(o))` gives back the object without its undefined properties. */
  lemma ParseStringify(o: Object)
    requires DistinctKeys(o)
    ensures Parse(Stringify(o)) == Some(PObject(Defined(o)))
  {
    var d := Defined(o);
    DefinedKeys(o);
    if d != [] {
      assert [] + d == d;
      assert ['}'] + [] == "}";
      MembersRoundTrip(d, [], []);
      var m := MembersThen(d, "}");
      assert m[0] == '"' by {
        if |d| == 1 {
          assert m == MemberThen(d[0], "}");
        } else {
          assert m == MemberThen(d[0], [','] + MembersThen(d[1..], "}"));
        }
      }
      var s := Stringify(o);
      assert s == ['{'] + m;
      assert s[1..] == m;
      assert s[1] != "{}"[1];
      assert s != "{}" && s[0] == '{';
      ParseObjectText(s, d);
    }
  }
}
