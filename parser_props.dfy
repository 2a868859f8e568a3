/**
 * Properties of the parser's environment actions: how a declaration list
 * settles each name, what element and plain assignments change and what
 * they leave alone, what reads see afterwards, and the result log's order.
 */
module ParserProperties {
  import opened Wrappers
  import opened Values
  import opened Parser

  // ---------------------------------------------------------------------
  // Declarations

  /**
   * `ultimo_valor` is the nearest initializer to the right: None exactly
   * when no item gives a value, and otherwise the initializer of the first
   * item that does. Vector items never give one.
   */
  lemma {:induction false} CarriedIsNearest(items: seq<Item>)
    ensures Carried(items) == PyNone <==> forall k :: 0 <= k < |items| ==> !Initialised(items[k])
    ensures forall k :: 0 <= k < |items| && Initialised(items[k]) && (forall j :: 0 <= j < k ==> !Initialised(items[j]))
              ==> Carried(items) == items[k].init
    decreases |items|
  {
    if items != [] && !Initialised(items[0]) {
      CarriedIsNearest(items[1..]);
      assert forall k :: 1 <= k < |items| ==> items[1..][k - 1] == items[k];
    }
  }

  /** The value settled on by an item, as seen from the list without its first item. */
  lemma EffectiveShift(items: seq<Item>, k: nat)
    requires 1 <= k < |items| && items[k].Scalar?
    ensures Effective(items[1..], k - 1) == Effective(items, k)
  {
    assert items[1..][k..] == items[k + 1..];
  }

  /** The value item `k` settles on: its own or the carried one for a scalar, none for a vector. */
  function Settled(items: seq<Item>, k: nat): Value
    requires k < |items|
  {
    if items[k].Scalar? then Effective(items, k) else PyNone
  }

  /** The message of item `k` is that of the item and the value it settles on. */
  lemma {:induction false} DeclMessageAt(tipo: Tipo, items: seq<Item>, env: Env, k: nat)
    requires k < |items|
    ensures DeclRun(tipo, items, env).messages[k] == ItemMessage(tipo, items[k], Settled(items, k))
    decreases k
  {
    if k > 0 {
      DeclMessageAt(tipo, items[1..], env, k - 1);
      assert items[1..][k - 1] == items[k];
      if items[k].Scalar? {
        EffectiveShift(items, k);
      }
    }
  }

  /**
   * The list `p_lista_declaraciones` builds is run head first in source
   * order: its first declaration settles on its own initializer, or else on
   * the one carried from the rest of the list; its message comes before the
   * rest's messages, and it acts on the environment the rest leaves.
   */
  lemma DeclarationListRun(tipo: Tipo, first: Item, rest: seq<Item>, env: Env)
    ensures var l := DeclarationList(first, rest);
      var v := if first.Scalar? && first.init != PyNone then first.init
               else if first.Scalar? then Carried(rest) else PyNone;
      var d := DeclRun(tipo, rest, env);
      DeclRun(tipo, l, env).messages == [ItemMessage(tipo, first, v)] + d.messages
      && DeclRun(tipo, l, env).env == (if first.Scalar? then ItemEnv(tipo, first.name, v, d.env) else d.env)
  {
    var l := DeclarationList(first, rest);
    assert l[1..] == rest;
  }

  /** One message per item, in the source order of the items (parser.py:102 reverses the reversed walk). */
  lemma DeclMessagesInOrder(tipo: Tipo, items: seq<Item>, env: Env)
    ensures forall k :: 0 <= k < |items| ==>
      DeclRun(tipo, items, env).messages[k] == ItemMessage(tipo, items[k], Settled(items, k))
  {
    forall k | 0 <= k < |items|
      ensures DeclRun(tipo, items, env).messages[k] == ItemMessage(tipo, items[k], Settled(items, k))
    {
      DeclMessageAt(tipo, items, env, k);
    }
  }

  /** Item `k` writes its name: it is left without a value, or its value passes the type test. */
  predicate Writes(tipo: Tipo, items: seq<Item>, k: nat)
    requires k < |items|
  {
    items[k].Scalar? && (Effective(items, k) == PyNone || Passes(tipo, Effective(items, k)))
  }

  /** What a writing item binds: `{type, value}` with the type's default when it has no value, the raw value otherwise. */
  function Written(tipo: Tipo, items: seq<Item>, k: nat): Binding
    requires k < |items| && items[k].Scalar?
  {
    if Effective(items, k) == PyNone then Typed(tipo, Default(tipo)) else Raw(Effective(items, k))
  }

  lemma WritesShift(tipo: Tipo, items: seq<Item>, k: nat)
    requires 1 <= k < |items|
    ensures Writes(tipo, items[1..], k - 1) == Writes(tipo, items, k)
    ensures items[k].Scalar? ==> Written(tipo, items[1..], k - 1) == Written(tipo, items, k)
  {
    if items[k].Scalar? {
      EffectiveShift(items, k);
    }
  }

  /** A first item that does not write `n` leaves `n` as the rest of the declaration left it. */
  lemma HeadLeavesName(tipo: Tipo, items: seq<Item>, env: Env, n: string)
    requires items != []
    requires items[0].name == n ==> !Writes(tipo, items, 0)
    ensures var d, rest := DeclRun(tipo, items, env).env, DeclRun(tipo, items[1..], env).env;
      (n in d <==> n in rest) && (n in rest ==> d[n] == rest[n])
  {
  }

  /** A first item that writes its name binds what it writes. */
  lemma HeadWritesName(tipo: Tipo, items: seq<Item>, env: Env)
    requires items != [] && Writes(tipo, items, 0)
    ensures var d := DeclRun(tipo, items, env).env;
      items[0].name in d && d[items[0].name] == Written(tipo, items, 0)
  {
  }

  /** A name that no item of a declaration writes keeps what it had: an initializer that fails its type test leaves the entry untouched. */
  lemma {:induction false} DeclUntouched(tipo: Tipo, items: seq<Item>, env: Env, n: string)
    requires forall k :: 0 <= k < |items| && items[k].name == n ==> !Writes(tipo, items, k)
    ensures var d := DeclRun(tipo, items, env);
      (n in d.env <==> n in env) && (n in env ==> d.env[n] == env[n])
    decreases |items|
  {
    if items != [] {
      forall k | 0 <= k < |items[1..]| && items[1..][k].name == n
        ensures !Writes(tipo, items[1..], k)
      {
        WritesShift(tipo, items, k + 1);
      }
      DeclUntouched(tipo, items[1..], env, n);
      HeadLeavesName(tipo, items, env, n);
    }
  }

  /**
   * A name that some item writes ends up with what the leftmost such item
   * writes, because the walk runs from the right and the first item acts
   * last.
   */
  lemma {:induction false} DeclLeftmostWins(tipo: Tipo, items: seq<Item>, env: Env, n: string, k: nat)
    requires k < |items| && items[k].name == n && Writes(tipo, items, k)
    requires forall j :: 0 <= j < k && items[j].name == n ==> !Writes(tipo, items, j)
    ensures var d := DeclRun(tipo, items, env);
      n in d.env && d.env[n] == Written(tipo, items, k)
    decreases |items|
  {
    if k > 0 {
      WritesShift(tipo, items, k);
      forall j | 0 <= j < k - 1 && items[1..][j].name == n
        ensures !Writes(tipo, items[1..], j)
      {
        WritesShift(tipo, items, j + 1);
      }
      DeclLeftmostWins(tipo, items[1..], env, n, k - 1);
      HeadLeavesName(tipo, items, env, n);
    } else {
      HeadWritesName(tipo, items, env);
    }
  }

  /** Storing what one item settles on keeps the environment's shapes. */
  lemma ItemEnvValid(tipo: Tipo, name: string, v: Value, env: Env)
    requires EnvValid(env)
    ensures EnvValid(ItemEnv(tipo, name, v, env))
  {
  }

  /** A declaration keeps the environment's shapes. */
  lemma {:induction false} DeclKeepsValid(tipo: Tipo, items: seq<Item>, env: Env)
    requires EnvValid(env)
    ensures EnvValid(DeclRun(tipo, items, env).env)
    decreases |items|
  {
    if items != [] {
      DeclKeepsValid(tipo, items[1..], env);
      var rest := DeclRun(tipo, items[1..], env).env;
      if items[0].Scalar? {
        ItemEnvValid(tipo, items[0].name, Effective(items, 0), rest);
      }
    }
  }

  /** `int a, b = 5`: `a` takes the 5 from its right. */
  lemma CarriedExample(env: Env)
    ensures DeclRun(IntType, [Scalar("a", PyNone), Scalar("b", PyInt(5))], env).env
         == env["b" := Raw(PyInt(5))]["a" := Raw(PyInt(5))]
  {
    var items := [Scalar("a", PyNone), Scalar("b", PyInt(5))];
    assert items[1..] == [Scalar("b", PyInt(5))];
    assert items[1..][1..] == [];
    assert items[2..] == [];
    assert Effective(items[1..], 0) == PyInt(5);
    assert DeclRun(IntType, items[1..], env).env == env["b" := Raw(PyInt(5))];
    assert Carried(items[1..]) == PyInt(5);
    assert Effective(items, 0) == PyInt(5);
  }

  /** `int a, v[2], b`: the vector item does not carry anything, so `a` and `b` get the default. */
  lemma VectorSkippedExample(env: Env)
    ensures DeclRun(IntType, [Scalar("a", PyNone), VectorItem("v", 2), Scalar("b", PyNone)], env).env
         == env["b" := Typed(IntType, PyInt(0))]["a" := Typed(IntType, PyInt(0))]
  {
    var items := [Scalar("a", PyNone), VectorItem("v", 2), Scalar("b", PyNone)];
    assert items[1..] == [VectorItem("v", 2), Scalar("b", PyNone)];
    assert items[1..][1..] == [Scalar("b", PyNone)];
    assert items[1..][1..][1..] == [];
    assert DeclRun(IntType, items[1..][1..], env).env == env["b" := Typed(IntType, PyInt(0))];
    assert DeclRun(IntType, items[1..], env).env == env["b" := Typed(IntType, PyInt(0))];
    assert Carried(items[1..]) == PyNone;
    assert Effective(items, 0) == PyNone;
  }

  // ---------------------------------------------------------------------
  // Vector declaration and reads

  /**
   * After `v[n]` is declared (whatever was bound to `v` before): `.len` is
   * `n`, every index below `n` reads 0, index `n` is out of range, the
   * identifier reads as the vector of zeros, and nothing else changes.
   */
  lemma DeclaredVector(env: Env, name: string, size: nat)
    requires EnvValid(env)
    ensures var env' := env[name := Vector(size, Zeros(size))];
      EnvValid(env')
      && LenOf(env', name) == PyInt(size)
      && (forall i :: 0 <= i < size ==> ReadElement(env', name, i) == Lookup(PyInt(0), None))
      && ReadElement(env', name, size) == Lookup(PyNone, Some(OutOfRange(name)))
      && ReadElement(env', name, -1) == Lookup(PyNone, Some(OutOfRange(name)))
      && ReadIdent(env', name).value == PyVector(Zeros(size))
      && (forall m :: m != name ==> (m in env' <==> m in env) && (m in env ==> env'[m] == env[m]))
  {
  }

  /** The read errors, in the order the source tests them. */
  lemma ReadElementErrors(env: Env, name: string, index: int)
    requires EnvValid(env)
    ensures name !in env ==> ReadElement(env, name, index).diagnostic == Some(VectorNotDeclared(name))
    ensures name in env && !env[name].Vector? ==> ReadElement(env, name, index).diagnostic == Some(NotAVector(name))
    ensures name in env && env[name].Vector? && !(0 <= index < env[name].size)
            ==> ReadElement(env, name, index).diagnostic == Some(OutOfRange(name))
  {
  }

  // ---------------------------------------------------------------------
  // Element assignment

  /** The element assignment's guard: a declared vector and an index in range. */
  predicate ElementInRange(env: Env, name: string, index: int)
  {
    name in env && env[name].Vector? && 0 <= index < env[name].size
  }

  /**
   * An element assignment that passes its guard changes `values[index]` of
   * that one vector and nothing else, keeping its size; one that fails
   * returns its error and leaves the environment as it was.
   */
  lemma ElementAssignmentEffect(env: Env, name: string, index: int, v: Value)
    requires EnvValid(env)
    ensures var a := ElementAssignment(env, name, index, v);
      EnvValid(a.env)
      && (forall m :: m != name ==> (m in a.env <==> m in env) && (m in env ==> a.env[m] == env[m]))
    ensures var a := ElementAssignment(env, name, index, v);
      ElementInRange(env, name, index) ==>
        name in a.env && a.env[name].Vector? && a.env[name].size == env[name].size
        && |a.env[name].values| == |env[name].values| && a.env[name].values[index] == v
        && (forall j :: 0 <= j < |env[name].values| && j != index ==> a.env[name].values[j] == env[name].values[j])
    ensures var a := ElementAssignment(env, name, index, v);
      !ElementInRange(env, name, index) ==> a.env == env
    ensures name !in env ==> ElementAssignment(env, name, index, v).reply == VectorNotDeclared(name)
    ensures name in env && !env[name].Vector? ==> ElementAssignment(env, name, index, v).reply == NotAVector(name)
    ensures name in env && env[name].Vector? && !(0 <= index < env[name].size)
            ==> ElementAssignment(env, name, index, v).reply == OutOfRange(name)
  {
  }

  /** Reading back after an element assignment: the written index gives the value, the others and `.len` are as before. */
  lemma ElementReadAfterWrite(env: Env, name: string, index: int, v: Value, j: int)
    requires EnvValid(env) && ElementInRange(env, name, index)
    ensures var env' := ElementAssignment(env, name, index, v).env;
      EnvValid(env')
      && ReadElement(env', name, index) == Lookup(v, None)
      && (j != index ==> ReadElement(env', name, j) == ReadElement(env, name, j))
      && LenOf(env', name) == LenOf(env, name)
  {
    ElementAssignmentEffect(env, name, index, v);
  }

  // ---------------------------------------------------------------------
  // Plain assignment

  /**
   * Which stored values the assignment protects, stated on the stored
   * value itself: a bool takes only a bool, an int (not a bool) takes an
   * int or a bool, a one-character string takes only a one-character
   * string; everything else takes anything.
   */
  predicate Accepts(b: Binding, v: Value)
  {
    match b
    case Raw(s) =>
      (s.PyBool? ==> v.PyBool?)
      && (s.PyInt? ==> v.PyInt? || v.PyBool?)
      && (IsChar(s) ==> IsChar(v))
    case _ => true
  }

  /** The type name in the error message for a stored value that rejects. */
  function Guarded(s: Value): string
  {
    if s.PyBool? then "bool" else if s.PyInt? then "int" else "char"
  }

  /**
   * A plain assignment to an undeclared name changes nothing; to a declared
   * name it overwrites the binding exactly when the stored value accepts
   * the new one, and otherwise reports the stored value's type. No other
   * name changes, and the environment keeps its shapes.
   */
  lemma VarAssignmentEffect(env: Env, name: string, v: Value)
    requires EnvValid(env)
    ensures name !in env ==> VarAssignment(env, name, v) == Assigned(env, NotDeclared(name))
    ensures name in env && Accepts(env[name], v) ==> VarAssignment(env, name, v).env == env[name := Bind(v)]
    ensures name in env && !Accepts(env[name], v) ==>
      VarAssignment(env, name, v) == Assigned(env, MustBe(name, Guarded(env[name].value)))
    ensures var a := VarAssignment(env, name, v);
      EnvValid(a.env)
      && (forall m :: m != name ==> (m in a.env <==> m in env) && (m in env ==> a.env[m] == env[m]))
  {
  }

  /** After an accepted assignment the identifier reads as the assigned value, vectors included. */
  lemma VarReadAfterWrite(env: Env, name: string, v: Value)
    requires EnvValid(env) && name in env && Accepts(env[name], v)
    ensures ReadIdent(VarAssignment(env, name, v).env, name) == Lookup(v, None)
  {
    VarAssignmentEffect(env, name, v);
    ReadBind(v);
  }

  /** Targets with no inferred type take any value: `{type, value}` entries, vectors, floats, None, strings that are not one character. */
  lemma UntypedTargetsAcceptAnything(b: Binding, v: Value)
    requires VarKind(b).None? || VarKind(b) == Some(FloatVar) || VarKind(b) == Some(StrVar)
    ensures Accepts(b, v)
  {
  }

  /** bool is tested before int: a stored bool refuses an int, while a stored int takes a bool. */
  lemma BoolBeforeInt(env: Env, name: string, b: bool, i: int)
    requires EnvValid(env) && name in env
    ensures env[name] == Raw(PyBool(b)) ==>
      VarAssignment(env, name, PyInt(i)) == Assigned(env, MustBe(name, "bool"))
    ensures env[name] == Raw(PyInt(i)) ==>
      VarAssignment(env, name, PyBool(b)).env == env[name := Raw(PyBool(b))]
  {
  }

  /**
   * `int x = true` passes the int test and stores True, and from then on
   * `x` is a bool variable: `x = 1` is refused.
   */
  lemma IntDeclaredWithTrue(env: Env, name: string)
    ensures var env' := DeclRun(IntType, [Scalar(name, PyBool(true))], env).env;
      env' == env[name := Raw(PyBool(true))]
      && VarAssignment(env', name, PyInt(1)) == Assigned(env', MustBe(name, "bool"))
  {
    assert [Scalar(name, PyBool(true))][1..] == [];
  }

  // ---------------------------------------------------------------------
  // The result log

  /** One line reduction keeps the log in line order and below the counter. */
  lemma LineKeepsLogOrdered(results: seq<Entry>, counter: int, e: Option<Value>)
    requires LogOrdered(results, counter)
    requires counter >= 1
    ensures LogOrdered(results + LineEntries(counter, e), counter + 1)
  {
  }

  /** The log after reducing `lines` one after another from line `counter`. */
  function LogOf(lines: seq<Option<Value>>, counter: int): seq<Entry>
    decreases |lines|
  {
    if lines == [] then [] else LineEntries(counter, lines[0]) + LogOf(lines[1..], counter + 1)
  }

  /** Every entry of the log of a run of lines names one of those lines, a loggable one, and carries the text of its value. */
  lemma {:induction false} LogOfEntries(lines: seq<Option<Value>>, counter: int)
    ensures forall i :: 0 <= i < |LogOf(lines, counter)| ==>
      var e := LogOf(lines, counter)[i];
      counter <= e.line < counter + |lines| && Loggable(lines[e.line - counter]) && e.text == Text(lines[e.line - counter].value)
    decreases |lines|
  {
    if lines != [] {
      LogOfEntries(lines[1..], counter + 1);
      var rest := LogOf(lines[1..], counter + 1);
      var head := LineEntries(counter, lines[0]);
      assert LogOf(lines, counter) == head + rest;
      forall i | 0 <= i < |rest|
        ensures lines[1..][rest[i].line - (counter + 1)] == lines[rest[i].line - counter]
      {
      }
    }
  }

  /** An entry for line `counter` in front of an ordered log of later lines keeps it ordered. */
  lemma PrependOrdered(head: seq<Entry>, rest: seq<Entry>, counter: int, top: int)
    requires |head| <= 1 && forall i :: 0 <= i < |head| ==> head[i].line == counter
    requires counter >= 1 && counter < top
    requires LogOrdered(rest, top) && forall i :: 0 <= i < |rest| ==> counter < rest[i].line
    ensures LogOrdered(head + rest, top)
  {
  }

  /** Over a run of lines the entries are in strictly increasing line order, below the line after the run. */
  lemma {:induction false} LogOfOrdered(lines: seq<Option<Value>>, counter: int)
    requires counter >= 1
    ensures LogOrdered(LogOf(lines, counter), counter + |lines|)
    decreases |lines|
  {
    if lines != [] {
      LogOfOrdered(lines[1..], counter + 1);
      LogOfEntries(lines[1..], counter + 1);
      PrependOrdered(LineEntries(counter, lines[0]), LogOf(lines[1..], counter + 1), counter, counter + |lines|);
    }
  }
}
