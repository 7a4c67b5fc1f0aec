/**
 * The syntax tree of one CEL rule as `analyse` reads it (`schema/src/rules.ts`), and the reads it recognises. A struct
 * or map literal is its key expressions and its values, each in order; its field names are not expressions.
 */
module RuleSyntax {

  import opened Maybe

  /** A literal: its text when it is a string, else its truth (true for the literal `true`). */
  datatype Literal = Str(s: string) | Other(truth: bool)

  datatype Expr =
    | Const(lit: Literal)
    | Ident(name: string)
    | Select(operand: Expr, field: string, testOnly: bool)
    | Call(fn: string, target: Option<Expr>, args: seq<Expr>)
    | ListOf(elements: seq<Expr>)
    | StructOf(keys: seq<Expr>, values: seq<Expr>)
    | Comprehension(iterVar: string, iterVar2: string, accuVar: string, iterRange: Expr, accuInit: Expr,
                    loopCondition: Expr, loopStep: Expr, result: Expr)
    | Unknown

  /** How many nodes a rule may have. */
  const AST_NODE_LIMIT: nat := 200
  /** How long the text of a rule may be. */
  const MAX_RULE_LENGTH: nat := 1000
  /** Elements of a list one read of `self` holds. */
  const LIST_CAP: nat := 100
  /** Entries of a map one read of `self` holds. */
  const MAP_CAP: nat := 200
  /** Code points of a string one read of `self` holds. */
  const LONGEST_CHECKED_STRING: nat := 10000
  /** What one scan costs per cap of its subject. */
  const REGEX_WEIGHT: nat := 100

  const SCANS: set<string> := {"matches", "contains", "startsWith", "endsWith"}
  const TYPE_IDENTS: set<string> := {"int", "uint", "double", "bool", "string", "bytes", "list", "map", "null_type",
      "type", "dyn"}

  predicate IsSelf(e: Expr) { e.Ident? && e.name == "self" }
  predicate IsSelfProperties(e: Expr) { e.Select? && IsSelf(e.operand) && e.field == "properties" }
  predicate IsStringConst(e: Expr) { e.Const? && e.lit.Str? }

  /** The variables a comprehension binds: the ones it names. */
  function LoopVars(e: Expr): seq<string>
    requires e.Comprehension?
  {
    Named(e.iterVar) + Named(e.iterVar2) + Named(e.accuVar)
  }

  function Named(v: string): seq<string> { if v == "" then [] else [v] }

  /** `self.properties.<name>` and `self.<name>` by index: the key is written in the rule. */
  predicate ReadsPropertyByKey(e: Expr) {
    e.Call? && e.fn == "_[_]" && |e.args| == 2 && IsSelfProperties(e.args[0]) && IsStringConst(e.args[1])
  }

  predicate ReadsFieldByKey(e: Expr) {
    e.Call? && e.fn == "_[_]" && |e.args| == 2 && IsSelf(e.args[0]) && IsStringConst(e.args[1])
  }

  /** What a scan runs over: the target when it has one, else its first argument. */
  function Subject(e: Expr): Option<Expr>
    requires e.Call?
  {
    if e.target.Some? then e.target else if |e.args| > 0 then Some(e.args[0]) else None
  }
}
