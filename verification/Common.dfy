// Types shared by the modules of the project.
module Common {

  datatype Option<+T> = None | Some(value: T)

  // The same letter, or its ASCII capital.
  predicate SameLetter(a: char, b: char) {
    || a == b
    || ('A' <= a <= 'Z' && b as int == a as int + 32)
    || ('A' <= b <= 'Z' && a as int == b as int + 32)
  }

  // Concatenation is associative; stated so that a proof can ask for one instance.
  lemma Assoc<T>(a: seq<T>, b: seq<T>, c: seq<T>)
    ensures a + b + c == a + (b + c)
  {
  }
}
