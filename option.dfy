/** The optional value used for Odoo's "False or value" fields and for Python's None. */
module Optional {
  datatype Option<+T> = None | Some(value: T)
}
