/** The requests the plugin sends to the vendor module. The model does not
    execute them; operations return the list of requests they issue. */
module PonCtrl {

  datatype Call =
    | SetEnable(path: string, enable: bool)
    | SetPassword(aniPath: string, password: string, hex: bool)

  /** The object a request is about. */
  function Target(c: Call): string {
    match c
    case SetEnable(p, _) => p
    case SetPassword(p, _, _) => p
  }
}
