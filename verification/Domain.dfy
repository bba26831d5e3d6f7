/** Entities shared by the publisher, the catalogue and the cache (`internal/domain/event.go`). */
module Domain {
  type Headers = map<string, string>

  datatype Consumer = Consumer(serviceName: string, baseUrl: string, path: string, headers: Headers)

  /** A registered event; `option` is the JSON text of its options, `kind` the Go field `Type`. */
  datatype Event = Event(id: nat, name: string, serviceName: string, state: string, kind: string, option: string,
                         consumers: seq<Consumer>)
}
