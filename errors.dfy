/** The two exceptions both user services throw, `NotFoundException` and
    `ConflictException`, each carrying its message, and the "User %d not
    found" message they share. */
module Errors {
  import Decimal

  datatype ServiceError = NotFound(message: string) | Conflict(message: string)

  /** `"User %d not found".formatted(id)`, with ASCII digits for `%d`. */
  function NotFoundMessage(id: int): (m: string)
    ensures |m| == |Decimal.LongToString(id)| + 15
  {
    "User " + Decimal.LongToString(id) + " not found"
  }

  /** The message names the id: distinct ids give distinct messages. */
  lemma NotFoundMessageInjective(a: int, b: int)
    ensures NotFoundMessage(a) == NotFoundMessage(b) <==> a == b
  {
    if NotFoundMessage(a) == NotFoundMessage(b) {
      var ma, mb := NotFoundMessage(a), NotFoundMessage(b);
      var sa, sb := Decimal.LongToString(a), Decimal.LongToString(b);
      assert ma[5..|ma| - 10] == sa;
      assert mb[5..|mb| - 10] == sb;
      Decimal.LongToStringInjective(a, b);
    }
  }
}
