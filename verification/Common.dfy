/** Vocabulary shared by the models. */
module Common {
  /** A nullable column, or a query that may find nothing. */
  datatype Option<+T> = None | Some(value: T)

  /** Text cut to what its column is given. */
  function Cut(text: string, limit: nat): (kept: string)
    ensures kept <= text && |kept| == if |text| <= limit then |text| else limit
  {
    if |text| <= limit then text else text[..limit]
  }
}
