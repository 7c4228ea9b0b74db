/** A TII profile: named parties and environment values. Bech32 decoding is foreign code: a
    party whose address does not decode maps to `None`. */
module Profile {
  import opened Base

  datatype Json = JsonString(text: Bytes) | OtherJson

  /** `values` is `None` when the environment is not a JSON object. */
  datatype Profile = Profile(parties: map<string, Option<Bytes>>, values: Option<seq<Json>>)
  {
    function Environment(): seq<Json> {
      match values
      case Some(vs) => vs
      case None => []
    }
  }
}
