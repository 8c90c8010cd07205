/**
 * Resolution of a table's settings from the cluster metadata: a plain table
 * reads the settings of its index, a partitioned table those of its index
 * template.
 */
module TableSettingsResolver {
  import opened Wrappers

  /** A table's schema and name. */
  datatype TableIdent = TableIdent(schema: string, name: string)

  /** Index or template settings, as key/value pairs. */
  datatype Settings = Settings(entries: map<string, string>)

  datatype IndexMetaData = IndexMetaData(settings: Settings)
  datatype TemplateMetaData = TemplateMetaData(settings: Settings)

  /** The cluster metadata: indices and index templates, each by name. */
  datatype MetaData = MetaData(indices: map<string, IndexMetaData>, templates: map<string, TemplateMetaData>)

  /**
   * How names are derived. `TableIdent.indexName` and
   * `PartitionName.templateName` are not part of this model, so the two
   * derivations are given as functions.
   */
  datatype Naming = Naming(indexName: TableIdent -> string, templateName: (string, string) -> string)

  datatype SettingsError =
    | IndexNotFound(index: string)
    | TableUnknown(table: TableIdent)

  /** `forTable`: the settings of the table's own index. */
  function ForTable(md: MetaData, naming: Naming, t: TableIdent): (r: Result<Settings, SettingsError>)
    ensures r.Ok? <==> naming.indexName(t) in md.indices
    ensures r.Ok? ==> r.value == md.indices[naming.indexName(t)].settings
    ensures r.Err? ==> r.error == IndexNotFound(naming.indexName(t))
  {
    var name := naming.indexName(t);
    if name !in md.indices then Err(IndexNotFound(name))
    else Ok(md.indices[name].settings)
  }

  /** `forPartitionedTable`: the settings of the template of the table's partitions. */
  function ForPartitionedTable(md: MetaData, naming: Naming, t: TableIdent): (r: Result<Settings, SettingsError>)
    ensures r.Ok? <==> naming.templateName(t.schema, t.name) in md.templates
    ensures r.Ok? ==> r.value == md.templates[naming.templateName(t.schema, t.name)].settings
    ensures r.Err? ==> r.error == TableUnknown(t)
  {
    var name := naming.templateName(t.schema, t.name);
    if name !in md.templates then Err(TableUnknown(t))
    else Ok(md.templates[name].settings)
  }

  /**
   * `get`: the partitioned flag alone chooses the lookup path, and each path
   * fails with its own error kind.
   */
  function Get(md: MetaData, naming: Naming, t: TableIdent, partitioned: bool): (r: Result<Settings, SettingsError>)
    ensures partitioned ==> (r.Ok? <==> naming.templateName(t.schema, t.name) in md.templates)
    ensures partitioned && r.Ok? ==> r.value == md.templates[naming.templateName(t.schema, t.name)].settings
    ensures partitioned && r.Err? ==> r.error == TableUnknown(t)
    ensures !partitioned ==> (r.Ok? <==> naming.indexName(t) in md.indices)
    ensures !partitioned && r.Ok? ==> r.value == md.indices[naming.indexName(t)].settings
    ensures !partitioned && r.Err? ==> r.error == IndexNotFound(naming.indexName(t))
  {
    if partitioned then ForPartitionedTable(md, naming, t) else ForTable(md, naming, t)
  }

  /** A partitioned table never consults the index map: any two index maps give the same answer. */
  lemma PartitionedIgnoresIndices(md: MetaData, indices: map<string, IndexMetaData>, naming: Naming, t: TableIdent)
    ensures Get(md, naming, t, true) == Get(md.(indices := indices), naming, t, true)
  {
  }

  /** A plain table never consults the templates. */
  lemma PlainIgnoresTemplates(md: MetaData, templates: map<string, TemplateMetaData>, naming: Naming, t: TableIdent)
    ensures Get(md, naming, t, false) == Get(md.(templates := templates), naming, t, false)
  {
  }

  /** The partitioned path depends on the table only through its derived template name. */
  lemma PartitionedDependsOnTemplateName(md: MetaData, naming: Naming, t: TableIdent, u: TableIdent)
    requires naming.templateName(t.schema, t.name) == naming.templateName(u.schema, u.name)
    ensures Get(md, naming, t, true).Ok? == Get(md, naming, u, true).Ok?
    ensures Get(md, naming, t, true).Ok? ==> Get(md, naming, t, true) == Get(md, naming, u, true)
  {
  }
}
