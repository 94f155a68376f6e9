/**
 Callback descriptors as the contract validator builds them, after sections 4.3.2 and 4.3.3 of
 the JVM Specification, and a reader that recovers the parameter types from them.
 */
module JniDescriptors {
  import opened Options

  /** Package and outer class of a contract file. */
  datatype Scope = Scope(package: string, outerClass: string) {
    /** What precedes a nested class: `f"{package.replace('.', '/')}/{outer_class}$"` */
    function Prefix(): string {
      Slashed(package) + "/" + outerClass + "$"
    }
  }

  function Slashed(s: string): string {
    if s == [] then [] else [if s[0] == '.' then '/' else s[0]] + Slashed(s[1..])
  }

  predicate IsArray(typeName: string) {
    2 <= |typeName| && typeName[|typeName| - 2..] == "[]"
  }

  function PrimitiveDescriptor(typeName: string): Option<char> {
    if typeName == "boolean" then Some('Z')
    else if typeName == "byte" then Some('B')
    else if typeName == "double" then Some('D')
    else if typeName == "float" then Some('F')
    else if typeName == "int" then Some('I')
    else if typeName == "long" then Some('J')
    else if typeName == "void" then Some('V')
    else None
  }

  function JavaDescriptor(typeName: string, scope: Scope): string {
    if IsArray(typeName) then "[" + JavaDescriptor(typeName[..|typeName| - 2], scope)
    else if PrimitiveDescriptor(typeName).Some? then [PrimitiveDescriptor(typeName).value]
    else if typeName == "String" then "Ljava/lang/String;"
    else "L" + scope.Prefix() + typeName + ";"
  }

  function Descriptors(types: seq<string>, scope: Scope): string {
    if types == [] then [] else JavaDescriptor(types[0], scope) + Descriptors(types[1..], scope)
  }

  function CallbackDescriptor(types: seq<string>, scope: Scope): string {
    "(" + Descriptors(types, scope) + ")V"
  }

  method BuildCallbackDescriptor(types: seq<string>, scope: Scope) returns (r: string)
    ensures r == CallbackDescriptor(types, scope)
  {
    var descriptor := "";
    for i := 0 to |types|
      invariant descriptor + Descriptors(types[i..], scope) == Descriptors(types, scope)
    {
      descriptor := descriptor + JavaDescriptor(types[i], scope);
      assert types[i..][1..] == types[i + 1..];
    }
    r := "(" + descriptor + ")V";
  }

  // ---------------------------------------------------------------- reading

  function PrimitiveName(c: char): Option<string> {
    if c == 'Z' then Some("boolean")
    else if c == 'B' then Some("byte")
    else if c == 'D' then Some("double")
    else if c == 'F' then Some("float")
    else if c == 'I' then Some("int")
    else if c == 'J' then Some("long")
    else if c == 'V' then Some("void")
    else None
  }

  function UpToSemicolon(s: string): (k: nat)
    ensures k <= |s|
    ensures ';' !in s[..k]
    ensures k < |s| ==> s[k] == ';'
  {
    if s == [] || s[0] == ';' then 0 else 1 + UpToSemicolon(s[1..])
  }

  /** A type name and the descriptors after it. */
  datatype Field = Malformed | Field(typeName: string, rest: string)

  function ReadClass(d: string, scope: Scope): Field {
    var k := UpToSemicolon(d);
    if k == |d| then Malformed
    else if d[..k] == "java/lang/String" then Field("String", d[k + 1..])
    else if scope.Prefix() <= d[..k] then Field(d[|scope.Prefix()|..k], d[k + 1..])
    else Malformed
  }

  function ReadField(d: string, scope: Scope): Field {
    if d == [] then Malformed
    else if d[0] == '[' then
      match ReadField(d[1..], scope)
      case Malformed => Malformed
      case Field(element, rest) => Field(element + "[]", rest)
    else if PrimitiveName(d[0]).Some? then Field(PrimitiveName(d[0]).value, d[1..])
    else if d[0] == 'L' then ReadClass(d[1..], scope)
    else Malformed
  }

  /** What no Java type name, package or class name contains. */
  ghost predicate Plain(typeName: string, scope: Scope) {
    ';' !in typeName && ';' !in scope.Prefix()
  }

  lemma {:induction false} UpTo(name: string, rest: string)
    requires ';' !in name
    ensures UpToSemicolon(name + ";" + rest) == |name|
  {
    var s := name + ";" + rest;
    if name != [] {
      UpTo(name[1..], rest);
      assert s[1..] == name[1..] + ";" + rest;
    }
  }

  lemma NestedIsNotString(scope: Scope, typeName: string)
    ensures scope.Prefix() + typeName != "java/lang/String"
  {
    var prefix := scope.Prefix();
    assert prefix[|prefix| - 1] == '$';
    assert (prefix + typeName)[|prefix| - 1] == '$';
    assert '$' !in "java/lang/String";
  }

  lemma ClassReadsBack(name: string, rest: string, scope: Scope)
    requires ';' !in name
    ensures name == "java/lang/String" ==> ReadClass(name + ";" + rest, scope) == Field("String", rest)
    ensures name != "java/lang/String" && scope.Prefix() <= name ==>
              ReadClass(name + ";" + rest, scope) == Field(name[|scope.Prefix()|..], rest)
  {
    UpTo(name, rest);
    var d := name + ";" + rest;
    assert d[..|name|] == name && d[|name| + 1..] == rest;
    if scope.Prefix() <= name {
      assert d[|scope.Prefix()|..|name|] == name[|scope.Prefix()|..];
    }
  }

  lemma PrimitiveReadsBack(typeName: string, scope: Scope, rest: string)
    requires PrimitiveDescriptor(typeName).Some?
    ensures ReadField([PrimitiveDescriptor(typeName).value] + rest, scope) == Field(typeName, rest)
  {
    assert ([PrimitiveDescriptor(typeName).value] + rest)[1..] == rest;
  }

  lemma ObjectReadsBack(name: string, rest: string, scope: Scope)
    ensures ReadField("L" + name + ";" + rest, scope) == ReadClass(name + ";" + rest, scope)
  {
    assert ("L" + name + ";" + rest)[1..] == name + ";" + rest;
  }

  lemma ArrayReadsBack(element: string, d: string, rest: string, scope: Scope)
    requires ReadField(d, scope) == Field(element, rest)
    ensures ReadField("[" + d, scope) == Field(element + "[]", rest)
  {
    assert ("[" + d)[1..] == d;
  }

  lemma ReferenceReadsBack(typeName: string, scope: Scope, rest: string)
    requires Plain(typeName, scope) && !IsArray(typeName) && PrimitiveDescriptor(typeName).None?
    ensures ReadField(JavaDescriptor(typeName, scope) + rest, scope) == Field(typeName, rest)
  {
    var name := if typeName == "String" then "java/lang/String" else scope.Prefix() + typeName;
    assert JavaDescriptor(typeName, scope) == "L" + name + ";";
    NestedIsNotString(scope, typeName);
    ObjectReadsBack(name, rest, scope);
    ClassReadsBack(name, rest, scope);
  }

  /** Reading undoes writing, whatever follows: the descriptors form a prefix-free code. */
  lemma {:induction false} FieldReadsBack(typeName: string, scope: Scope, rest: string)
    requires Plain(typeName, scope)
    ensures ReadField(JavaDescriptor(typeName, scope) + rest, scope) == Field(typeName, rest)
  {
    if IsArray(typeName) {
      var element := typeName[..|typeName| - 2];
      FieldReadsBack(element, scope, rest);
      ArrayReadsBack(element, JavaDescriptor(element, scope) + rest, rest, scope);
      assert JavaDescriptor(typeName, scope) + rest == "[" + (JavaDescriptor(element, scope) + rest);
      assert element + "[]" == typeName;
    } else if PrimitiveDescriptor(typeName).Some? {
      PrimitiveReadsBack(typeName, scope, rest);
    } else {
      ReferenceReadsBack(typeName, scope, rest);
    }
  }

  ghost predicate AllPlain(types: seq<string>, scope: Scope) {
    forall t :: t in types ==> Plain(t, scope)
  }

  lemma {:induction false} DescriptorsReadBack(a: seq<string>, b: seq<string>, scope: Scope)
    requires AllPlain(a, scope) && AllPlain(b, scope)
    requires Descriptors(a, scope) == Descriptors(b, scope)
    ensures a == b
  {
    if a != [] {
      FieldReadsBack(a[0], scope, Descriptors(a[1..], scope));
    }
    if b != [] {
      FieldReadsBack(b[0], scope, Descriptors(b[1..], scope));
    }
    if a != [] && b != [] {
      DescriptorsReadBack(a[1..], b[1..], scope);
      assert a == [a[0]] + a[1..] && b == [b[0]] + b[1..];
    }
  }

  /** Two callbacks of one contract have the same descriptor exactly when they have the same parameter types. */
  lemma CallbacksAgreeIff(a: seq<string>, b: seq<string>, scope: Scope)
    requires AllPlain(a, scope) && AllPlain(b, scope)
    ensures CallbackDescriptor(a, scope) == CallbackDescriptor(b, scope) <==> a == b
  {
    var x, y := CallbackDescriptor(a, scope), CallbackDescriptor(b, scope);
    assert x[1..|x| - 2] == Descriptors(a, scope) && y[1..|y| - 2] == Descriptors(b, scope);
    if x == y {
      DescriptorsReadBack(a, b, scope);
    }
  }

  // ---------------------------------------------------------------- letter for letter

  /** A nested class is named by its package with slashes for the dots and nothing else changed, and its outer class. */
  lemma {:induction false} PrefixIsSlashed(scope: Scope)
    ensures var p, n := scope.Prefix(), |scope.package|;
            && |p| == n + 1 + |scope.outerClass| + 1
            && (forall i :: 0 <= i < n ==> p[i] == if scope.package[i] == '.' then '/' else scope.package[i])
            && p[n..] == "/" + scope.outerClass + "$"
  {
    SlashedIs(scope.package);
    assert scope.Prefix()[|scope.package|..] == "/" + scope.outerClass + "$";
  }

  lemma {:induction false} SlashedIs(s: string)
    ensures |Slashed(s)| == |s| && forall i :: 0 <= i < |s| ==> Slashed(s)[i] == if s[i] == '.' then '/' else s[i]
  {
    if s != [] {
      SlashedIs(s[1..]);
    }
  }

  /** The descriptors themselves, as section 4.3.2 of the JVM Specification has them. */
  lemma PrimitivesAreThese(scope: Scope)
    ensures JavaDescriptor("boolean", scope) == "Z" && JavaDescriptor("byte", scope) == "B"
    ensures JavaDescriptor("double", scope) == "D" && JavaDescriptor("float", scope) == "F"
    ensures JavaDescriptor("int", scope) == "I" && JavaDescriptor("long", scope) == "J"
    ensures JavaDescriptor("void", scope) == "V" && JavaDescriptor("String", scope) == "Ljava/lang/String;"
  {
  }

  /** Arrays of anything, and nested classes. */
  lemma ReferencesAreThese(scope: Scope, typeName: string)
    ensures JavaDescriptor(typeName + "[]", scope) == "[" + JavaDescriptor(typeName, scope)
    ensures typeName !in {"boolean", "byte", "double", "float", "int", "long", "void", "String"}
            && (|typeName| < 2 || typeName[|typeName| - 2..] != "[]") ==>
              JavaDescriptor(typeName, scope) == "L" + scope.Prefix() + typeName + ";"
  {
    ArraysNest(typeName, scope);
  }

  /** A callback: its parameters' descriptors between the parentheses, in order, and void. */
  lemma CallbacksAreThese(scope: Scope, typeName: string, types: seq<string>)
    ensures CallbackDescriptor([], scope) == "()V"
    ensures CallbackDescriptor(types, scope)[0] == '('
    ensures CallbackDescriptor([typeName] + types, scope)
            == "(" + JavaDescriptor(typeName, scope) + CallbackDescriptor(types, scope)[1..]
  {
    var first, rest := JavaDescriptor(typeName, scope), Descriptors(types, scope);
    assert ([typeName] + types)[1..] == types;
    assert Descriptors([typeName] + types, scope) == first + rest;
    assert CallbackDescriptor(types, scope)[1..] == rest + ")V";
    Regroup(first, rest);
  }

  lemma Regroup(first: string, rest: string)
    ensures "(" + (first + rest) + ")V" == "(" + first + (rest + ")V")
  {
  }

  lemma ArraysNest(typeName: string, scope: Scope)
    ensures JavaDescriptor(typeName + "[]", scope) == "[" + JavaDescriptor(typeName, scope)
  {
    var s := typeName + "[]";
    assert s[|s| - 2..] == "[]" && s[..|s| - 2] == typeName;
  }
}
