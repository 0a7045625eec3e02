/** An optional value: a configured collaborator or an absent one (`nullptr`). */
module Optional {

  datatype Option<+T> = None | Some(value: T)
}
