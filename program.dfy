/** Functions and the library (function.h, library.h). Identifiers are strings:
    identifier.h is not part of this model. */
module Program {
  import opened Statements

  /** A function: its name, its parameter names in order, and its body. */
  datatype Function = Function(name: string, params: seq<string>, body: Statement)

  /** Function(name, body): no parameters. */
  function MakeFunction(name: string, body: Statement): (f: Function)
    ensures f.name == name && f.params == [] && f.body == body
  {
    Function(name, [], body)
  }

  /** Function(name, params, body). */
  function MakeFunctionWithParams(name: string, params: seq<string>, body: Statement): (f: Function)
    ensures f.name == name && f.params == params && f.body == body
  {
    Function(name, params, body)
  }

  /** A library: the functions of a program, in the order the parser collected them. */
  datatype Library = Library(functions: seq<Function>)

  /** Library(): no functions. */
  function EmptyLibrary(): (l: Library)
    ensures |l.functions| == 0
  {
    Library([])
  }
}
