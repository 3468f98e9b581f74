/** An optional value: stands for the `undefined` / `null` results of the
    source's dictionary lookups, `Array.find` and the nullable `rig`. */
module Optional {

  datatype Option<+T> = None | Some(value: T)
}
