/** Outcomes of the calculator's stages. The Rust code reports errors as
    leaked `&'static str` messages; here each message is a constructor that
    carries the offending character or lexeme as data. */
module Errors {

  datatype Error =
    /** "Invalid character: c" — an alphabetic character reached the lexer. */
    | InvalidCharacter(c: char)
    /** "Invalid end of expression" — the input ended outside a number lexeme. */
    | InvalidEndOfExpression
    /** "Error creating new token with content: ..." — `Token::new` matched nothing. */
    | InvalidTokenContent(content: string)
    /** The lexer called `.unwrap()` on a failed `Token::new`: in the Rust
        program this is a panic, not an `Err`. */
    | Panicked(lexeme: string)
    /** "Error parsing expresion" — the value stack did not end with exactly one value. */
    | MalformedExpression

  datatype Result<T> = Ok(value: T) | Err(error: Error)
}
