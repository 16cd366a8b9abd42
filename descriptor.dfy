/**
 * The signature builder `method_signature_of` (jni/src/resolver.rs) and the
 * grammar of JVM type descriptors it relies on (JVM Specification section
 * 4.3.2 "Field Descriptors" and section 4.3.3 "Method Descriptors"; the JNI
 * Specification, chapter 3, "Type Signatures").
 */
module Descriptor {
  import opened Wrappers

  /** The argument descriptors, in declaration order, followed by `rest`. */
  function Render(args: seq<string>, rest: string): (r: string)
    ensures |rest| <= |r|
  {
    if args == [] then rest else args[0] + Render(args[1..], rest)
  }

  /** The method descriptor "(" + args[0] + ... + args[n-1] + ")" + ret. */
  function MethodDescriptor(args: seq<string>, ret: string): string
  {
    "(" + Render(args, ")" + ret)
  }

  /**
   * `method_signature_of`: the `Display` loop of `ArgsSignature` writes each
   * argument descriptor in order between the parentheses of `format!`, then
   * the return descriptor follows. Writing into a `String` cannot fail, so
   * the `?` on each write never propagates an error.
   */
  method MethodSignatureOf(args: seq<string>, ret: string) returns (out: string)
    ensures out == MethodDescriptor(args, ret)
    ensures args == [] ==> out == "()" + ret
  {
    out := "(";
    for i := 0 to |args|
      invariant out + Render(args[i..], ")" + ret) == MethodDescriptor(args, ret)
    {
      assert args[i..][1..] == args[i + 1..];
      out := out + args[i];
    }
    out := out + ")" + ret;
  }

  // ---------------------------------------------------------------------
  // The descriptor grammar and a parser for it.

  /** BaseType of section 4.3.2: one of B C D F I J S Z. */
  predicate IsBaseType(c: char)
  {
    c in "BCDFIJSZ"
  }

  /**
   * FieldType of section 4.3.2: a BaseType letter, an ObjectType
   * `L ClassName ;` (the class name non-empty and free of `;`), or an
   * ArrayType `[ ComponentType`.
   */
  predicate IsFieldDescriptor(s: string)
    decreases |s|
  {
    if |s| == 0 then false
    else if IsBaseType(s[0]) then |s| == 1
    else if s[0] == 'L' then 3 <= |s| && s[|s| - 1] == ';' && forall j :: 1 <= j < |s| - 1 ==> s[j] != ';'
    else if s[0] == '[' then IsFieldDescriptor(s[1..])
    else false
  }

  /** Every argument descriptor is a field descriptor. */
  predicate AllFieldDescriptors(args: seq<string>)
  {
    forall i :: 0 <= i < |args| ==> IsFieldDescriptor(args[i])
  }

  /** ReturnDescriptor of section 4.3.3: a FieldType or `V` (void). */
  predicate IsReturnDescriptor(s: string)
  {
    s == "V" || IsFieldDescriptor(s)
  }

  /** The first index at or after `from` that holds `c`. */
  function IndexOf(s: string, c: char, from: nat): (k: Option<nat>)
    ensures k.Some? ==> from <= k.value < |s|
    decreases |s| - from
  {
    if |s| <= from then None
    else if s[from] == c then Some(from)
    else IndexOf(s, c, from + 1)
  }

  /** IndexOf finds `c`, and no earlier `c`. */
  lemma {:induction false} IndexOfSound(s: string, c: char, from: nat)
    requires IndexOf(s, c, from).Some?
    ensures s[IndexOf(s, c, from).value] == c
    ensures forall j :: from <= j < IndexOf(s, c, from).value ==> s[j] != c
    decreases |s| - from
  {
    if s[from] != c {
      IndexOfSound(s, c, from + 1);
    }
  }

  /** IndexOf finds the first `c` at or after `from`. */
  lemma {:induction false} IndexOfFirst(s: string, c: char, from: nat, k: nat)
    requires from <= k < |s| && s[k] == c
    requires forall j :: from <= j < k ==> s[j] != c
    ensures IndexOf(s, c, from) == Some(k)
    decreases k - from
  {
    if from < k {
      IndexOfFirst(s, c, from + 1, k);
    }
  }

  /** The length of the field descriptor that starts `s`, if one does. */
  function FieldDescriptorLength(s: string): (n: Option<nat>)
    ensures n.Some? ==> 0 < n.value <= |s|
    decreases |s|
  {
    if |s| == 0 then None
    else if IsBaseType(s[0]) then Some(1)
    else if s[0] == 'L' then
      match IndexOf(s, ';', 1)
      case Some(k) => if 2 <= k then Some(k + 1) else None
      case None => None
    else if s[0] == '[' then
      match FieldDescriptorLength(s[1..])
      case Some(k) => Some(k + 1)
      case None => None
    else None
  }

  /** What FieldDescriptorLength measures is a field descriptor. */
  lemma {:induction false} FieldDescriptorLengthSound(s: string)
    requires FieldDescriptorLength(s).Some?
    ensures IsFieldDescriptor(s[..FieldDescriptorLength(s).value])
    decreases |s|
  {
    var n := FieldDescriptorLength(s).value;
    if !IsBaseType(s[0]) && s[0] == 'L' {
      IndexOfSound(s, ';', 1);
    } else if !IsBaseType(s[0]) && s[0] == '[' {
      FieldDescriptorLengthSound(s[1..]);
      assert s[..n][1..] == s[1..][..n - 1];
    }
  }

  /** A field descriptor is never a proper prefix of another one. */
  lemma {:induction false} FieldDescriptorPrefix(d: string, rest: string)
    requires IsFieldDescriptor(d)
    ensures FieldDescriptorLength(d + rest) == Some(|d|)
    decreases |d|
  {
    var s := d + rest;
    assert s[0] == d[0];
    if IsBaseType(d[0]) {
    } else if d[0] == 'L' {
      assert s[|d| - 1] == ';';
      assert forall j :: 1 <= j < |d| - 1 ==> s[j] == d[j];
      IndexOfFirst(s, ';', 1, |d| - 1);
    } else {
      assert s[1..] == d[1..] + rest;
      FieldDescriptorPrefix(d[1..], rest);
    }
  }

  /**
   * Reads field descriptors up to the closing parenthesis; gives the
   * descriptors read and the index of the `)`.
   */
  function ParseArgs(s: string): (r: Option<(seq<string>, nat)>)
    ensures r.Some? ==> r.value.1 < |s|
    decreases |s|
  {
    if |s| == 0 then None
    else if s[0] == ')' then Some(([], 0))
    else
      var n := FieldDescriptorLength(s);
      if n.None? then None
      else
        var rest := ParseArgs(s[n.value..]);
        if rest.None? then None
        else Some(([s[..n.value]] + rest.value.0, n.value + rest.value.1))
  }

  /** Splits a method descriptor into its argument and return descriptors. */
  function ParseMethodDescriptor(s: string): Option<(seq<string>, string)>
  {
    if |s| == 0 || s[0] != '(' then None
    else
      match ParseArgs(s[1..])
      case None => None
      case Some(r) =>
        var ret := s[r.1 + 2..];
        if IsReturnDescriptor(ret) then Some((r.0, ret)) else None
  }

  /** One step of ParseArgs over a leading field descriptor. */
  lemma ParseArgsStep(s: string, head: string, tail: string, r: (seq<string>, nat))
    requires s == head + tail
    requires 0 < |head| && FieldDescriptorLength(s) == Some(|head|) && s[0] != ')'
    requires ParseArgs(tail) == Some(r)
    ensures ParseArgs(s) == Some(([head] + r.0, |head| + r.1))
  {
    assert s[..|head|] == head;
    assert s[|head|..] == tail;
  }

  /** A field descriptor never starts with the closing parenthesis. */
  lemma FieldDescriptorStart(d: string)
    requires IsFieldDescriptor(d)
    ensures 0 < |d| && d[0] != ')'
  {
  }

  /** Parsing a leading field descriptor, then the rest. */
  lemma ParseArgsCons(args: seq<string>, rest: string, n: nat)
    requires args != [] && IsFieldDescriptor(args[0])
    requires ParseArgs(Render(args[1..], rest)) == Some((args[1..], n))
    ensures ParseArgs(Render(args, rest)) == Some((args, |args[0]| + n))
  {
    var head, tail := args[0], Render(args[1..], rest);
    var s := Render(args, rest);
    assert s == head + tail;
    FieldDescriptorPrefix(head, tail);
    FieldDescriptorStart(head);
    assert s[0] == head[0];
    ParseArgsStep(s, head, tail, (args[1..], n));
    assert [head] + args[1..] == args;
  }

  lemma {:induction false} ParseArgsOfRender(args: seq<string>, rest: string)
    requires AllFieldDescriptors(args)
    requires 0 < |rest| && rest[0] == ')'
    ensures ParseArgs(Render(args, rest)) == Some((args, |Render(args, rest)| - |rest|))
  {
    if args != [] {
      var n := |Render(args[1..], rest)| - |rest|;
      assert ParseArgs(Render(args[1..], rest)) == Some((args[1..], n)) by {
        ParseArgsOfRender(args[1..], rest);
      }
      assert IsFieldDescriptor(args[0]);
      ParseArgsCons(args, rest, n);
    }
  }

  /** The rendering ends with `rest`. */
  lemma {:induction false} RenderSuffix(args: seq<string>, rest: string)
    ensures var r := Render(args, rest); r[|r| - |rest|..] == rest
  {
    if args != [] {
      RenderSuffix(args[1..], rest);
      var t := Render(args[1..], rest);
      assert Render(args, rest)[|Render(args, rest)| - |rest|..] == t[|t| - |rest|..];
    }
  }

  /**
   * What ParseArgs reads is well formed: field descriptors, then the `)` at
   * the index it reports, and the input is their rendering.
   */
  lemma {:induction false} ParseArgsSound(s: string, args: seq<string>, k: nat)
    requires ParseArgs(s) == Some((args, k))
    ensures AllFieldDescriptors(args)
    ensures k < |s| && s[k] == ')' && Render(args, s[k..]) == s
    decreases |s|
  {
    if s[0] == ')' {
      assert args == [] && k == 0;
      assert s[0..] == s;
    } else {
      var n := FieldDescriptorLength(s).value;
      ParseArgsUnfold(s);
      var (tail, m) := ParseArgs(s[n..]).value;
      ParseArgsSound(s[n..], tail, m);
      FieldDescriptorLengthSound(s);
      ParseArgsSoundCons(s, n, tail, m, args, k);
    }
  }

  /** ParseArgs over a leading field descriptor, unfolded once. */
  lemma ParseArgsUnfold(s: string)
    requires ParseArgs(s).Some? && s[0] != ')'
    ensures FieldDescriptorLength(s).Some?
    ensures var n := FieldDescriptorLength(s).value;
      && ParseArgs(s[n..]).Some?
      && ParseArgs(s) == Some(([s[..n]] + ParseArgs(s[n..]).value.0, n + ParseArgs(s[n..]).value.1))
  {
  }

  /** The inductive step of ParseArgsSound, on values. */
  lemma ParseArgsSoundCons(s: string, n: nat, tail: seq<string>, m: nat, args: seq<string>, k: nat)
    requires n <= |s| && IsFieldDescriptor(s[..n])
    requires AllFieldDescriptors(tail)
    requires m < |s[n..]| && s[n..][m] == ')' && Render(tail, s[n..][m..]) == s[n..]
    requires args == [s[..n]] + tail && k == n + m
    ensures AllFieldDescriptors(args)
    ensures k < |s| && s[k] == ')' && Render(args, s[k..]) == s
  {
    assert s[n..][m..] == s[n + m..];
    RenderCons(s[..n], tail, s[n + m..]);
    assert s[..n] + s[n..] == s;
  }

  lemma RenderCons(head: string, tail: seq<string>, rest: string)
    ensures Render([head] + tail, rest) == head + Render(tail, rest)
  {
    assert ([head] + tail)[1..] == tail;
  }

  /** ParseMethodDescriptor once its argument list has been read. */
  lemma ParseMethodDescriptorOf(body: string, args: seq<string>, ret: string, k: nat)
    requires ParseArgs(body) == Some((args, k))
    requires k <= |body| && body[k..] == ")" + ret && IsReturnDescriptor(ret)
    ensures ParseMethodDescriptor("(" + body) == Some((args, ret))
  {
    var s := "(" + body;
    assert s[1..] == body;
    assert s[k + 2..] == body[k..][1..] == ret;
  }

  /**
   * The descriptor built from well-formed argument and return descriptors
   * determines them: parsing it gives them back, in declaration order.
   */
  lemma ParseMethodDescriptorRoundTrip(args: seq<string>, ret: string)
    requires AllFieldDescriptors(args)
    requires IsReturnDescriptor(ret)
    ensures ParseMethodDescriptor(MethodDescriptor(args, ret)) == Some((args, ret))
  {
    var t := ")" + ret;
    var body := Render(args, t);
    var k := |body| - |t|;
    assert ParseArgs(body) == Some((args, k)) by {
      ParseArgsOfRender(args, t);
    }
    assert body[k..] == t by {
      RenderSuffix(args, t);
    }
    ParseMethodDescriptorOf(body, args, ret, k);
  }

  /** Distinct well-formed signatures give distinct method descriptors. */
  lemma MethodDescriptorInjective(args1: seq<string>, ret1: string, args2: seq<string>, ret2: string)
    requires AllFieldDescriptors(args1)
    requires AllFieldDescriptors(args2)
    requires IsReturnDescriptor(ret1) && IsReturnDescriptor(ret2)
    requires MethodDescriptor(args1, ret1) == MethodDescriptor(args2, ret2)
    ensures args1 == args2 && ret1 == ret2
  {
    ParseMethodDescriptorRoundTrip(args1, ret1);
    ParseMethodDescriptorRoundTrip(args2, ret2);
  }

  /**
   * The converse of the round trip: whatever the parser accepts is the
   * rendering of well-formed argument descriptors and a well-formed return
   * descriptor, so parsing and rendering are inverse to each other.
   */
  lemma ParseMethodDescriptorSound(s: string, args: seq<string>, ret: string)
    requires ParseMethodDescriptor(s) == Some((args, ret))
    ensures AllFieldDescriptors(args) && IsReturnDescriptor(ret)
    ensures s == MethodDescriptor(args, ret)
  {
    var body := s[1..];
    var k := ParseArgs(body).value.1;
    assert ParseArgs(body) == Some((args, k)) && ret == s[k + 2..];
    ParseArgsSound(body, args, k);
    assert body[k..] == ")" + ret by {
      assert body[k + 1..] == s[k + 2..];
    }
    assert s == "(" + body;
  }

  /** Two renderings: three arguments and a void return, and no arguments at all. */
  lemma DescriptorExamples()
    ensures MethodDescriptor(["I", "F", "Ljava/lang/String;"], "V") == "(IFLjava/lang/String;)V"
    ensures MethodDescriptor([], "I") == "()I"
  {
    var str, t := "Ljava/lang/String;", ")" + "V";
    var args := ["I", "F", str];
    assert Render(args, t) == "I" + "F" + str + t by {
      assert args[1..] == ["F", str] && ["F", str][1..] == [str] && [str][1..] == [];
      assert Render([str], t) == str + t;
      assert Render(["F", str], t) == "F" + str + t;
    }
    assert "(" + "I" + "F" + str + t == "(IFLjava/lang/String;)V" by {
      assert "(" + "I" + "F" == "(IF";
      assert "(IF" + str == "(IFLjava/lang/String;";
      assert "(IFLjava/lang/String;" + t == "(IFLjava/lang/String;)V";
    }
  }
}
