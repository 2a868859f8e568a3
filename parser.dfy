/**
 * The parser's environment (`entorno`, parser.py:9) and the semantic actions
 * that read or change it, together with the per-line result log and line
 * counter. The LALR engine that calls the actions is not modelled: each
 * action is an operation that receives the values its grammar symbols
 * carry.
 *
 * The environment maps each name to one of three shapes: a raw value (an
 * initialized scalar), a `{'type', 'value'}` dictionary (a scalar declared
 * without a value), or a `{'type': 'vector', 'size', 'values'}` dictionary.
 */
module Parser {
  import opened Wrappers
  import opened Values

  datatype Binding =
    | Raw(value: Value)
    | Typed(tipo: Tipo, value: Value)
    | Vector(size: nat, values: seq<Value>)

  type Env = map<string, Binding>

  /** The default value of a scalar declared without one. */
  function Default(tipo: Tipo): Value
  {
    match tipo
    case IntType => PyInt(0)
    case FloatType => PyFloat("0.0")
    case BoolType => PyBool(false)
    case CharType => PyStr("")
  }

  /** The shapes the actions keep: a vector's size is its number of values, a typed entry holds its default, a raw entry is not a dictionary. */
  predicate BindingValid(b: Binding)
  {
    match b
    case Raw(v) => !v.PyVector?
    case Typed(t, v) => v == Default(t)
    case Vector(size, values) => size == |values|
  }

  predicate EnvValid(env: Env)
  {
    forall n :: n in env ==> BindingValid(env[n])
  }

  /** Storing a value with `entorno[name] = value`: a vector dictionary stays a vector. */
  function Bind(v: Value): (b: Binding)
    ensures BindingValid(b)
  {
    if v.PyVector? then Vector(|v.items|, v.items) else Raw(v)
  }

  /** The value an identifier evaluates to (parser.py:367-370): the `value` of a typed entry, the dictionary of a vector. */
  function Read(b: Binding): Value
  {
    match b
    case Raw(v) => v
    case Typed(_, v) => v
    case Vector(_, values) => PyVector(values)
  }

  /** Storing a value and reading it back gives the value. */
  lemma ReadBind(v: Value)
    ensures Read(Bind(v)) == v
  {
  }

  function Zeros(size: nat): (z: seq<Value>)
    ensures |z| == size && forall i :: 0 <= i < size ==> z[i] == PyInt(0)
  {
    seq(size, _ => PyInt(0))
  }

  /** The result of a read-only action, with the error it prints, if any. */
  datatype Lookup = Lookup(value: Value, diagnostic: Option<string>)

  function Quoted(name: string): string
  {
    "'" + name + "'"
  }

  function NotDeclared(name: string): string
  {
    "Error: Variable " + Quoted(name) + " no declarada"
  }

  function VectorNotDeclared(name: string): string
  {
    "Error: Vector " + Quoted(name) + " no declarado"
  }

  function NotAVector(name: string): string
  {
    "Error: " + Quoted(name) + " no es un vector"
  }

  function OutOfRange(name: string): string
  {
    "Error: Índice fuera de rango para el vector " + Quoted(name)
  }

  function MustBe(name: string, typeName: string): string
  {
    "Error: Variable " + Quoted(name) + " debe ser " + typeName
  }

  // ---------------------------------------------------------------------
  // Identifier read, vector read and `.len`

  /** `elemento : ID` (parser.py:363-373). */
  function ReadIdent(env: Env, name: string): (r: Lookup)
    ensures name in env <==> r.diagnostic.None?
    ensures name in env ==> r.value == Read(env[name])
    ensures name !in env ==> r.value == PyNone
  {
    if name in env then Lookup(Read(env[name]), None)
    else Lookup(PyNone, Some("Error: Variable " + Quoted(name) + " no definida"))
  }

  /** `elemento : ID CE ENTERO_DECIMAL CS` (parser.py:142-157). */
  function ReadElement(env: Env, name: string, index: int): (r: Lookup)
    requires EnvValid(env)
    ensures r.diagnostic.None? <==> name in env && env[name].Vector? && 0 <= index < env[name].size
    ensures r.diagnostic.None? ==> r.value == env[name].values[index]
    ensures r.diagnostic.Some? ==> r.value == PyNone
  {
    if name !in env then Lookup(PyNone, Some(VectorNotDeclared(name)))
    else if !env[name].Vector? then Lookup(PyNone, Some(NotAVector(name)))
    else if !(0 <= index < env[name].size) then Lookup(PyNone, Some(OutOfRange(name)))
    else Lookup(env[name].values[index], None)
  }

  /** `expresion : ID PNTO LEN` (parser.py:132-140): the size, or an error string. */
  function LenOf(env: Env, name: string): (r: Value)
    ensures name in env && env[name].Vector? ==> r == PyInt(env[name].size)
    ensures name !in env ==> r == PyStr(NotDeclared(name))
    ensures name in env && !env[name].Vector? ==> r == PyStr(NotAVector(name))
  {
    if name !in env then PyStr(NotDeclared(name))
    else if env[name].Vector? then PyInt(env[name].size)
    else PyStr(NotAVector(name))
  }

  // ---------------------------------------------------------------------
  // Declarations

  /**
   * One `declaracion` (parser.py:114-130): a name with its initializer, where
   * `PyNone` stands for no initializer (an initializer that evaluates to
   * None is indistinguishable from none), or a vector with its size.
   */
  datatype Item = Scalar(name: string, init: Value) | VectorItem(name: string, size: nat)

  /** `lista_declaraciones` (parser.py:105-111): the first declaration followed by the rest. */
  function DeclarationList(first: Item, rest: seq<Item>): (l: seq<Item>)
    ensures |l| == 1 + |rest| && l[0] == first && l[1..] == rest
  {
    [first] + rest
  }

  /** The item gives a value of its own. */
  predicate Initialised(item: Item)
  {
    item.Scalar? && item.init != PyNone
  }

  /**
   * The value `ultimo_valor` carries into the item just before `items`: the
   * initializer of the leftmost initialized scalar of `items`, or None.
   */
  function Carried(items: seq<Item>): Value
  {
    if items == [] then PyNone
    else if Initialised(items[0]) then items[0].init
    else Carried(items[1..])
  }

  /** The value the declaration loop settles on for item `k`. */
  function Effective(items: seq<Item>, k: nat): Value
    requires k < |items| && items[k].Scalar?
  {
    if items[k].init != PyNone then items[k].init else Carried(items[k + 1..])
  }

  /** The type test of an initialized declaration (parser.py:90-97). */
  predicate Passes(tipo: Tipo, v: Value)
  {
    match tipo
    case CharType => IsChar(v)
    case IntType => IsIntInstance(v)
    case FloatType => v.PyFloat?
    case BoolType => v.PyBool?
  }

  /** The message of one item of a declaration of type `tipo`, given the value it settled on. */
  function ItemMessage(tipo: Tipo, item: Item, v: Value): string
  {
    match item
    case VectorItem(name, size) =>
      "Vector " + Quoted(name) + " de tipo " + tipo.Name() + " inicializado con tamaño " + IntText(size)
    case Scalar(name, _) =>
      if v == PyNone then "Variable " + Quoted(name) + " de tipo " + tipo.Name() + " declarada sin inicializar"
      else if !Passes(tipo, v) then MustBe(name, tipo.Name())
      else "Variable " + Quoted(name) + " de tipo " + tipo.Name() + " inicializada con valor " + Text(v)
  }

  /** What one scalar of the declaration does to the environment, given the value it settled on. */
  function ItemEnv(tipo: Tipo, name: string, v: Value, env: Env): Env
  {
    if v == PyNone then env[name := Typed(tipo, Default(tipo))]
    else if !Passes(tipo, v) then env
    else env[name := Raw(v)]
  }

  /** The outcome of a whole declaration. */
  datatype Declared = Declared(env: Env, messages: seq<string>)

  /**
   * `p_declaracion_variable` (parser.py:48-102) as a specification: the items
   * are handled from the right, so the first item acts last, with the value
   * carried from the items after it; the messages are in source order.
   */
  function DeclRun(tipo: Tipo, items: seq<Item>, env: Env): (d: Declared)
    ensures |d.messages| == |items|
  {
    if items == [] then Declared(env, [])
    else
      var rest := DeclRun(tipo, items[1..], env);
      var item := items[0];
      var v := if item.Scalar? then Effective(items, 0) else PyNone;
      var env' := if item.Scalar? then ItemEnv(tipo, item.name, v, rest.env) else rest.env;
      Declared(env', [ItemMessage(tipo, item, v)] + rest.messages)
  }

  function Reverse<T>(s: seq<T>): (r: seq<T>)
    ensures |r| == |s|
    ensures forall i :: 0 <= i < |s| ==> r[i] == s[|s| - 1 - i]
  {
    if s == [] then [] else Reverse(s[1..]) + [s[0]]
  }

  // ---------------------------------------------------------------------
  // Vector element assignment

  /** The outcome of an assignment action: the new environment and the string it yields. */
  datatype Assigned = Assigned(env: Env, reply: string)

  /** `expresion : ID CE ENTERO_DECIMAL CS EQ expresion` (parser.py:159-173) as a specification. */
  function ElementAssignment(env: Env, name: string, index: int, v: Value): (a: Assigned)
    requires EnvValid(env)
  {
    if name !in env then Assigned(env, VectorNotDeclared(name))
    else if !env[name].Vector? then Assigned(env, NotAVector(name))
    else if !(0 <= index < env[name].size) then Assigned(env, OutOfRange(name))
    else
      var b := env[name];
      Assigned(env[name := Vector(b.size, b.values[index := v])],
               "Elemento " + IntText(index) + " de vector " + Quoted(name) + " actualizado a " + Text(v))
  }

  // ---------------------------------------------------------------------
  // Plain assignment

  /** The type the assignment infers from the stored value (parser.py:186-194). */
  datatype VarType = BoolVar | IntVar | FloatVar | CharVar | StrVar

  /** bool is tested before int; a dictionary (typed or vector entry) and None give no type. */
  function VarKind(b: Binding): (k: Option<VarType>)
    ensures k == Some(BoolVar) <==> b.Raw? && b.value.PyBool?
    ensures k == Some(IntVar) <==> b.Raw? && b.value.PyInt?
    ensures k.None? <==> !b.Raw? || b.value.PyNone? || b.value.PyVector?
  {
    match b
    case Raw(v) =>
      if v.PyBool? then Some(BoolVar)
      else if v.PyInt? then Some(IntVar)
      else if v.PyFloat? then Some(FloatVar)
      else if v.PyStr? then (if |v.s| == 1 then Some(CharVar) else Some(StrVar))
      else None
    case _ => None
  }

  /** `expresion : ID EQ expresion` (parser.py:176-207) as a specification. */
  function VarAssignment(env: Env, name: string, v: Value): (a: Assigned)
  {
    if name !in env then Assigned(env, NotDeclared(name))
    else
      var kind := VarKind(env[name]);
      if kind == Some(CharVar) && !IsChar(v) then Assigned(env, MustBe(name, "char"))
      else if kind == Some(IntVar) && !IsIntInstance(v) then Assigned(env, MustBe(name, "int"))
      else if kind == Some(BoolVar) && !v.PyBool? then Assigned(env, MustBe(name, "bool"))
      else Assigned(env[name := Bind(v)], "Variable " + Quoted(name) + " actualizada a " + Text(v))
  }

  // ---------------------------------------------------------------------
  // The result log

  /** One entry of `resultados`: a line number and the text of the line's value. */
  datatype Entry = Entry(line: int, text: string)

  /** `p_linea` logs a line `expresion NEWLINE` whose value is neither None nor the string "\n"; `None` stands for a bare NEWLINE. */
  predicate Loggable(e: Option<Value>)
  {
    e.Some? && e.value != PyNone && e.value != PyStr("\n")
  }

  /** The entries `p_linea` appends for line `counter` with value `e`. */
  function LineEntries(counter: int, e: Option<Value>): (es: seq<Entry>)
    ensures |es| <= 1
    ensures |es| == 1 <==> Loggable(e)
    ensures forall i :: 0 <= i < |es| ==> es[i] == Entry(counter, Text(e.value))
  {
    if Loggable(e) then [Entry(counter, Text(e.value))] else []
  }

  /** The log is in strictly increasing line order, every entry below the current line. */
  predicate LogOrdered(results: seq<Entry>, counter: int)
  {
    (forall i, j :: 0 <= i < j < |results| ==> results[i].line < results[j].line)
    && (forall i :: 0 <= i < |results| ==> 1 <= results[i].line < counter)
  }

  /**
   * The parser object's state: the environment, the result log and the line
   * counter (parser.py:8-12).
   */
  class ParserState {
    var env: Env
    var results: seq<Entry>
    var lineCounter: int

    predicate Valid()
      reads this
    {
      EnvValid(env) && lineCounter >= 1 && LogOrdered(results, lineCounter)
    }

    constructor ()
      ensures Valid()
      ensures env == map[] && results == [] && lineCounter == 1
    {
      env := map[];
      results := [];
      lineCounter := 1;
    }

    /** `p_linea` (parser.py:41-46): log the line's value if it has one worth logging, then count the line. */
    method ReduceLine(e: Option<Value>)
      requires Valid()
      modifies this
      ensures Valid()
      ensures results == old(results) + LineEntries(old(lineCounter), e)
      ensures lineCounter == old(lineCounter) + 1
      ensures env == old(env)
    {
      if e.Some? && e.value != PyNone && e.value != PyStr("\n") {
        results := results + [Entry(lineCounter, Text(e.value))];
      }
      lineCounter := lineCounter + 1;
    }

    /** The vector branch of `p_declaracion` (parser.py:122-130): bind the name to a vector of zeros, whatever was there. */
    method DeclareVector(name: string, size: nat) returns (item: Item)
      requires Valid()
      modifies this
      ensures Valid()
      ensures env == old(env)[name := Vector(size, Zeros(size))]
      ensures item == VectorItem(name, size)
      ensures results == old(results) && lineCounter == old(lineCounter)
    {
      env := env[name := Vector(size, Zeros(size))];
      item := VectorItem(name, size);
    }

    /**
     * `p_declaracion_variable` (parser.py:48-102): walk the items from the
     * right, carrying the last initializer seen, and join the messages in
     * source order.
     */
    method Declare(tipo: Tipo, items: seq<Item>) returns (reply: string)
      requires Valid()
      modifies this
      ensures Valid()
      ensures env == DeclRun(tipo, items, old(env)).env
      ensures reply == Join("\n", DeclRun(tipo, items, old(env)).messages)
      ensures results == old(results) && lineCounter == old(lineCounter)
    {
      var messages: seq<string> := [];
      var carried := PyNone;
      var i := |items|;
      while i > 0
        invariant 0 <= i <= |items|
        invariant carried == Carried(items[i..])
        invariant env == DeclRun(tipo, items[i..], old(env)).env
        invariant messages == Reverse(DeclRun(tipo, items[i..], old(env)).messages)
        invariant EnvValid(env)
        invariant results == old(results) && lineCounter == old(lineCounter)
        decreases i
      {
        i := i - 1;
        StepDeclRun(tipo, items, i, old(env));
        var message;
        carried, message := DeclareItem(tipo, items[i], carried);
        ghost var rest := DeclRun(tipo, items[i + 1..], old(env)).messages;
        assert ([message] + rest)[1..] == rest;
        messages := messages + [message];
      }
      assert items[0..] == items;
      ReverseReverse(DeclRun(tipo, items, old(env)).messages);
      reply := Join("\n", Reverse(messages));
    }

    /**
     * One pass of the loop in `p_declaracion_variable` (parser.py:57-100):
     * a vector item only adds its message; a scalar settles on its own
     * initializer or the carried one, then is bound to its default, rejected
     * by the type test, or bound to the value.
     */
    method DeclareItem(tipo: Tipo, item: Item, carried: Value) returns (next: Value, message: string)
      requires EnvValid(env)
      modifies this
      ensures EnvValid(env)
      ensures next == if Initialised(item) then item.init else carried
      ensures var v := if item.Scalar? && item.init != PyNone then item.init
                       else if item.Scalar? then carried else PyNone;
        message == ItemMessage(tipo, item, v)
        && env == if item.Scalar? then ItemEnv(tipo, item.name, v, old(env)) else old(env)
      ensures results == old(results) && lineCounter == old(lineCounter)
    {
      next := carried;
      if item.VectorItem? {
        message := "Vector " + Quoted(item.name) + " de tipo " + tipo.Name() + " inicializado con tamaño " + IntText(item.size);
        return;
      }
      var value := item.init;
      if value == PyNone && carried != PyNone {
        value := carried;
      } else if value != PyNone {
        next := value;
      }
      var name := item.name;
      if value == PyNone {
        message := "Variable " + Quoted(name) + " de tipo " + tipo.Name() + " declarada sin inicializar";
        env := env[name := Typed(tipo, Default(tipo))];
      } else if tipo == CharType && !IsChar(value) {
        message := MustBe(name, "char");
      } else if tipo == IntType && !IsIntInstance(value) {
        message := MustBe(name, "int");
      } else if tipo == FloatType && !value.PyFloat? {
        message := MustBe(name, "float");
      } else if tipo == BoolType && !value.PyBool? {
        message := MustBe(name, "bool");
      } else {
        env := env[name := Raw(value)];
        message := "Variable " + Quoted(name) + " de tipo " + tipo.Name() + " inicializada con valor " + Text(value);
      }
    }

    /** `p_asignacion_vector_elemento` (parser.py:159-173): write one element in place. */
    method AssignElement(name: string, index: int, v: Value) returns (reply: string)
      requires Valid()
      modifies this
      ensures Valid()
      ensures Assigned(env, reply) == ElementAssignment(old(env), name, index, v)
      ensures results == old(results) && lineCounter == old(lineCounter)
    {
      if name !in env {
        return VectorNotDeclared(name);
      }
      var b := env[name];
      if !b.Vector? {
        return NotAVector(name);
      }
      if !(0 <= index < b.size) {
        return OutOfRange(name);
      }
      env := env[name := Vector(b.size, b.values[index := v])];
      reply := "Elemento " + IntText(index) + " de vector " + Quoted(name) + " actualizado a " + Text(v);
    }

    /** `p_asignacion_variable` (parser.py:176-207): type-check against the stored value, then overwrite it. */
    method AssignVariable(name: string, v: Value) returns (reply: string)
      requires Valid()
      modifies this
      ensures Valid()
      ensures Assigned(env, reply) == VarAssignment(old(env), name, v)
      ensures results == old(results) && lineCounter == old(lineCounter)
    {
      if name !in env {
        return NotDeclared(name);
      }
      var stored := env[name];
      var varType: Option<VarType> := None;
      if stored.Raw? {
        var s := stored.value;
        if s.PyBool? {
          varType := Some(BoolVar);
        } else if s.PyInt? {
          varType := Some(IntVar);
        } else if s.PyFloat? {
          varType := Some(FloatVar);
        } else if s.PyStr? {
          varType := if |s.s| == 1 then Some(CharVar) else Some(StrVar);
        }
      }
      if varType == Some(CharVar) && !IsChar(v) {
        reply := MustBe(name, "char");
      } else if varType == Some(IntVar) && !IsIntInstance(v) {
        reply := MustBe(name, "int");
      } else if varType == Some(BoolVar) && !v.PyBool? {
        reply := MustBe(name, "bool");
      } else {
        env := env[name := Bind(v)];
        reply := "Variable " + Quoted(name) + " actualizada a " + Text(v);
      }
    }
  }

  /** Handling item `i` next takes the declaration from `items[i + 1..]` to `items[i..]`. */
  lemma StepDeclRun(tipo: Tipo, items: seq<Item>, i: nat, env: Env)
    requires i < |items|
    ensures items[i..][1..] == items[i + 1..]
    ensures var rest := DeclRun(tipo, items[i + 1..], env);
      var v := if items[i].Scalar? then Effective(items, i) else PyNone;
      DeclRun(tipo, items[i..], env)
      == Declared(if items[i].Scalar? then ItemEnv(tipo, items[i].name, v, rest.env) else rest.env,
                  [ItemMessage(tipo, items[i], v)] + rest.messages)
  {
    assert items[i..][1..] == items[i + 1..];
    if items[i].Scalar? {
      assert Effective(items[i..], 0) == Effective(items, i);
    }
  }

  /** Reversing twice gives the sequence back. */
  lemma {:induction false} ReverseReverse<T>(s: seq<T>)
    ensures Reverse(Reverse(s)) == s
  {
  }
}
