/** The abstract syntax tree shared by the parser, the type checker and the compiler
    (src/ast.rs). */
module Ast {
  import opened Base

  /** A type of the surface language: a 32-bit unsigned integer or a function type. */
  datatype Type = Fun(parameters: seq<Type>, result: Type) | U32

  datatype Expression =
    | Call(callee: string, arguments: seq<Expression>)
    | Variable(name: string)
    | Add(left: Expression, right: Expression)
    | Sub(left: Expression, right: Expression)
    | Mul(left: Expression, right: Expression)
    | Div(left: Expression, right: Expression)
    | Mod(left: Expression, right: Expression)
    | NumLiteral(value: u32)
  {
    /** One of the five binary arithmetic forms. */
    predicate IsBinary() {
      Add? || Sub? || Mul? || Div? || Mod?
    }
  }

  /** `Let(name, type, initializer)`; the parser always fills in the type. */
  datatype Statement =
    | Let(name: string, declared: Option<Type>, initializer: Expression)
    | Expr(expression: Expression)
    | Return(expression: Expression)

  /** A parameter `name: type`. */
  datatype Parameter = Parameter(name: string, typ: Type)

  /** `Declaration::Function`, the only kind of declaration. */
  datatype Declaration = Function(name: string, arguments: seq<Parameter>, returnType: Type, body: seq<Statement>)
}
