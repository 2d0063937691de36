/** The resource records, the changelogs that carry them and the keys they are stored under
    (src/resources/mod.rs, and the key builders of src/storage/mod.rs). */
module Resources {

  datatype Option<+T> = None | Some(value: T)

  datatype Namespace = Namespace(name: string, tags: seq<string>)

  datatype Route = Route(
    name: string, namespace: string, paths: seq<string>, methods: seq<string>,
    service: Option<string>, modules: seq<string>)

  datatype Service = Service(name: string, namespace: string, urls: seq<string>)

  /** `payload` is the script that the Base64 text decodes to, `None` when it does not decode. */
  datatype Module = Module(name: string, namespace: string, payload: Option<string>)

  datatype Domain = Domain(name: string, namespace: string, patterns: seq<string>, priority: int)

  datatype Secret = Secret(name: string, namespace: string, data: string)

  datatype Visibility = Private | Public

  datatype Collection = Collection(name: string, namespace: string, visibility: Visibility) {
    /** Private collections are visible in their own namespace only. */
    predicate IsAccessibleFrom(requesting: string) {
      match visibility
      case Private => namespace == requesting
      case Public => true
    }
  }

  /** `data` is an opaque JSON text; `updatedAt` stands for both time stamps. */
  datatype Document = Document(id: string, namespace: string, collection: string, data: string, updatedAt: nat)

  datatype ChangeCommand =
    | AddNamespace | DeleteNamespace
    | AddRoute | DeleteRoute
    | AddService | DeleteService
    | AddModule | DeleteModule
    | AddDomain | DeleteDomain
    | AddSecret | DeleteSecret
    | AddCollection | DeleteCollection
    | AddDocument | DeleteDocument

  /** What the JSON item of a changelog deserializes to; `Malformed` fits no resource type. */
  datatype Item =
    | NamespaceItem(ns: Namespace)
    | RouteItem(route: Route)
    | ServiceItem(service: Service)
    | ModuleItem(mod: Module)
    | DomainItem(domain: Domain)
    | SecretItem(secret: Secret)
    | CollectionItem(collection: Collection)
    | DocumentItem(document: Document)
    | Malformed

  datatype ChangeLog = ChangeLog(
    id: string, cmd: ChangeCommand, namespace: string, name: string, item: Item, timestamp: nat)

  datatype Table =
    | Namespaces | Routes | Services | Modules | Domains | Secrets | Collections | Documents

  /** A row address: the table and the string key inside it. */
  datatype Key = Key(table: Table, name: string)

  /** All resource tables, read as one map. */
  type Store = map<Key, Item>

  function ScopedKey(namespace: string, name: string): string {
    namespace + ":" + name
  }

  function DocumentKey(namespace: string, collection: string, id: string): string {
    namespace + ":" + collection + ":" + id
  }

  /** The row a resource is written to by its typed setter. */
  function KeyOf(item: Item): (k: Key)
    requires item != Malformed
  {
    match item
    case NamespaceItem(ns) => Key(Namespaces, ns.name)
    case RouteItem(r) => Key(Routes, ScopedKey(r.namespace, r.name))
    case ServiceItem(s) => Key(Services, ScopedKey(s.namespace, s.name))
    case ModuleItem(m) => Key(Modules, ScopedKey(m.namespace, m.name))
    case DomainItem(d) => Key(Domains, ScopedKey(d.namespace, d.name))
    case SecretItem(s) => Key(Secrets, ScopedKey(s.namespace, s.name))
    case CollectionItem(c) => Key(Collections, ScopedKey(c.namespace, c.name))
    case DocumentItem(d) => Key(Documents, DocumentKey(d.namespace, d.collection, d.id))
  }

  /** The single row a changelog writes or removes. */
  datatype Write = Put(key: Key, item: Item) | Remove(key: Key)

  function PutIf(fits: bool, item: Item): Option<Write>
    requires fits ==> item != Malformed
  {
    if fits then Some(Put(KeyOf(item), item)) else None
  }

  /** The write a changelog stands for; `None` when its item does not deserialize.
      Deletes ignore the item, except that deleting a document reads the collection from it. */
  function Effect(cl: ChangeLog): Option<Write> {
    match cl.cmd
    case AddNamespace => PutIf(cl.item.NamespaceItem?, cl.item)
    case DeleteNamespace => Some(Remove(Key(Namespaces, cl.name)))
    case AddRoute => PutIf(cl.item.RouteItem?, cl.item)
    case DeleteRoute => Some(Remove(Key(Routes, ScopedKey(cl.namespace, cl.name))))
    case AddService => PutIf(cl.item.ServiceItem?, cl.item)
    case DeleteService => Some(Remove(Key(Services, ScopedKey(cl.namespace, cl.name))))
    case AddModule => PutIf(cl.item.ModuleItem?, cl.item)
    case DeleteModule => Some(Remove(Key(Modules, ScopedKey(cl.namespace, cl.name))))
    case AddDomain => PutIf(cl.item.DomainItem?, cl.item)
    case DeleteDomain => Some(Remove(Key(Domains, ScopedKey(cl.namespace, cl.name))))
    case AddSecret => PutIf(cl.item.SecretItem?, cl.item)
    case DeleteSecret => Some(Remove(Key(Secrets, ScopedKey(cl.namespace, cl.name))))
    case AddCollection => PutIf(cl.item.CollectionItem?, cl.item)
    case DeleteCollection => Some(Remove(Key(Collections, ScopedKey(cl.namespace, cl.name))))
    case AddDocument => PutIf(cl.item.DocumentItem?, cl.item)
    case DeleteDocument =>
      if cl.item.DocumentItem?
      then Some(Remove(Key(Documents, DocumentKey(cl.namespace, cl.item.document.collection, cl.name))))
      else None
  }

  /** The store after one changelog. */
  function Apply(s: Store, cl: ChangeLog): Store {
    match Effect(cl)
    case None => s
    case Some(Put(k, item)) => s[k := item]
    case Some(Remove(k)) => s - {k}
  }

  /** What the admin handlers ensure: the item carries the namespace and name of its changelog. */
  predicate ItemMatches(cl: ChangeLog) {
    match cl.item
    case NamespaceItem(x) => x.name == cl.name
    case RouteItem(x) => x.namespace == cl.namespace && x.name == cl.name
    case ServiceItem(x) => x.namespace == cl.namespace && x.name == cl.name
    case ModuleItem(x) => x.namespace == cl.namespace && x.name == cl.name
    case DomainItem(x) => x.namespace == cl.namespace && x.name == cl.name
    case SecretItem(x) => x.namespace == cl.namespace && x.name == cl.name
    case CollectionItem(x) => x.namespace == cl.namespace && x.name == cl.name
    case DocumentItem(x) => x.namespace == cl.namespace && x.id == cl.name
    case Malformed => true
  }

  /** The command that takes back what an adding command did. */
  function Opposite(cmd: ChangeCommand): Option<ChangeCommand> {
    match cmd
    case AddNamespace => Some(DeleteNamespace)
    case AddRoute => Some(DeleteRoute)
    case AddService => Some(DeleteService)
    case AddModule => Some(DeleteModule)
    case AddDomain => Some(DeleteDomain)
    case AddSecret => Some(DeleteSecret)
    case AddCollection => Some(DeleteCollection)
    case AddDocument => Some(DeleteDocument)
    case _ => None
  }
}
