/** The descriptor shapes a plugin author fills in (metadata, routes,
    navigation entries, data-model schemas, API extensions, settings and
    lifecycle hooks) and `CreatePlugin`, the builder that hands its argument
    back unchanged. Every optional TypeScript property is an `Option`;
    JavaScript object literals keyed by name (`fields`, `settings`) are
    sequences of name/value pairs in their literal order. */
module PluginTypes {
  import opened Wrappers

  /** Stand-in for a value the registry stores but never inspects or calls:
      a lazy `() => import(...)` component loader, an API handler, a React
      icon node or a lifecycle hook function. `tag` only distinguishes them. */
  datatype Deferred = Deferred(tag: string)

  /** A literal `default` or `options` value of a field or setting (`any` in the source). */
  datatype Literal = NumberLit(n: int) | BoolLit(b: bool) | StringLit(s: string) | OpaqueLit(tag: string)

  datatype PluginMetadata = PluginMetadata(
    id: string,
    name: string,
    version: string,
    description: string,
    author: Option<string>,
    homepage: Option<string>)

  datatype PluginRoute = PluginRoute(
    path: string,
    component: Deferred,
    title: Option<string>,
    requiresAuth: Option<bool>,
    permissions: Option<seq<string>>)

  datatype PluginNavItem = PluginNavItem(
    labelText: string,  // `label` in the source; a reserved word in Dafny
    path: string,
    icon: Option<Deferred>,
    order: Option<int>,
    requiresAuth: Option<bool>,
    permissions: Option<seq<string>>)

  datatype FieldType = StringType | NumberType | BooleanType | DateType | JsonType | RelationType

  /** The declared union has one-to-one, one-to-many and many-to-many only.
      `ManyToOne` is added because the forum plugin's relation fields use
      `'many-to-one'`, a string outside that union which the fixture stores
      all the same; the registry never reads this value. */
  datatype Cardinality = OneToOne | OneToMany | ManyToMany | ManyToOne

  datatype Relation = Relation(model: string, kind: Cardinality)

  datatype FieldSpec = FieldSpec(
    fieldType: FieldType,
    required: Option<bool>,
    default: Option<Literal>,
    relation: Option<Relation>)

  datatype ApiEndpoints = ApiEndpoints(
    list: Option<string>,
    create: Option<string>,
    read: Option<string>,
    update: Option<string>,
    delete: Option<string>)

  datatype PluginDataModel = PluginDataModel(
    name: string,
    fields: seq<(string, FieldSpec)>,
    apiEndpoints: Option<ApiEndpoints>)

  datatype HttpMethod = GET | POST | PUT | DELETE | PATCH

  datatype PluginApiExtension = PluginApiExtension(
    endpoint: string,
    httpMethod: HttpMethod,  // `method` in the source
    handler: Deferred)

  datatype SettingType = StringSetting | NumberSetting | BooleanSetting | SelectSetting

  datatype Setting = Setting(
    settingType: SettingType,
    labelText: string,  // `label` in the source; a reserved word in Dafny
    default: Literal,
    options: Option<seq<Literal>>)

  datatype Plugin = Plugin(
    metadata: PluginMetadata,
    routes: Option<seq<PluginRoute>>,
    navigation: Option<seq<PluginNavItem>>,
    dataModels: Option<seq<PluginDataModel>>,
    apiExtensions: Option<seq<PluginApiExtension>>,
    onInstall: Option<Deferred>,
    onUninstall: Option<Deferred>,
    onActivate: Option<Deferred>,
    onDeactivate: Option<Deferred>,
    settings: Option<seq<(string, Setting)>>)

  /** The builder performs no validation and no copying: the plugin it
      returns is the configuration it was given, so every field, and in
      particular the registry key `metadata.id`, is exactly as written. */
  function CreatePlugin(config: Plugin): (p: Plugin)
    ensures p.metadata.id == config.metadata.id
    ensures p == config
  {
    config
  }

  /** The sort key of a navigation item: `item.order || 0`. */
  function NavOrder(item: PluginNavItem): int {
    item.order.GetOr(0)
  }

  /** `plugin.routes || []` and its siblings: a missing list contributes nothing. */
  function RoutesOf(p: Plugin): seq<PluginRoute> {
    p.routes.GetOr([])
  }

  function NavigationOf(p: Plugin): seq<PluginNavItem> {
    p.navigation.GetOr([])
  }

  function DataModelsOf(p: Plugin): seq<PluginDataModel> {
    p.dataModels.GetOr([])
  }
}
