/** Failure-compatible wrappers shared by every stage of the calculator pipeline.
    The C++ code signals failures with exceptions; here each failure is a value
    of `Error`, one constructor per distinct failure the pipeline can raise. */
module Outcomes {

  datatype Option<+T> = None | Some(value: T)

  /** The failures of the pipeline, one per exception message of the C++ code. */
  datatype Error =
    | ForbiddenSymbols              // a character outside digits, separators, operators and spaces
    | MultipleFloatingPoints        // a number with more than one decimal separator
    | InvalidNumber                 // std::stod finds no digit to convert
    | WrongTokenAfterNegativeSign   // a sign followed by neither a number nor `(`
    | MisorderedTokens              // a misplaced operator, or a line without a number
    | MismatchedParenthesis         // a `)` with no `(` to match
    | UnknownOperator               // unordered_map::at on a char missing from a table
    | BadVariantAccess              // std::get on the other alternative of a Token
    | OperatorNotFound              // a postfix list with no operator left to apply
    | LhsNotFound                   // an operator with fewer than two operands before it
    | NotANumber                    // an operand of an operator that is not a number
    | DivisionByZero                // a division whose right operand is zero

  datatype Result<+T> = Ok(value: T) | Err(error: Error) {
    predicate IsFailure() { Err? }

    function PropagateFailure<U>(): Result<U>
      requires Err?
    {
      Err(error)
    }

    function Extract(): T
      requires Ok?
    {
      value
    }
  }
}
