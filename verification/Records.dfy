/** The persisted record of a VM (internal/vm/state.go), as far as the modelled operations use it. */
module Records {
  datatype Record = Record(
    name: string,
    ip: string,
    mac: string,
    cpus: int,
    memoryMB: int,
    diskGB: int,
    forwards: map<string, string>,
    isolated: bool)

  /** The content of a vm.json file: a record, or something LoadVM cannot read. */
  datatype Content = Good(rec: Record) | Broken
}
