/** The three-state soft-delete status shared by products and categories
    (the `ProductStatus` and `CategoryStatus` enums have the same three
    values). The toggle endpoint flips Active to Inactive and sends every
    other state to Active; removal sets Deleted and keeps the row. */
module SoftDelete {

  datatype Status = Active | Inactive | Deleted

  /** The status written by `changeStatus`. */
  function Toggled(s: Status): (t: Status)
    ensures t == Inactive <==> s == Active
    ensures t != Deleted
  {
    if s == Active then Inactive else Active
  }

  /** The name appended to the `changeStatus` message; it is computed from
      the status read before the update, so it names the new status. */
  function ToggledName(s: Status): (name: string)
    ensures name == "Inactive" <==> s == Active
    ensures name == "Active" <==> s != Active
  {
    if s == Active then "Inactive" else "Active"
  }

  /** The message always names the status that the toggle writes. */
  lemma ToggledNameNamesNewStatus(s: Status)
    ensures ToggledName(s) == (if Toggled(s) == Active then "Active" else "Inactive")
  {
  }

  /** Toggling twice restores Active and Inactive; Deleted comes back as
      Inactive, because the first toggle reactivates it. */
  lemma ToggleTwice(s: Status)
    ensures s != Deleted ==> Toggled(Toggled(s)) == s
    ensures Toggled(Toggled(Deleted)) == Inactive
  {
  }
}
