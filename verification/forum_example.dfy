/** The forum plugin: the reference fixture that fills in every descriptor
    kind but API extensions (metadata, three routes, one navigation entry,
    three related data models, three settings, three lifecycle hooks), and
    the properties of it the registry relies on, ending with a full register / activate /
    deactivate scenario on a fresh registry.

    The fixture's hooks only write a log line, so when awaited they resolve. */
module ForumExample {
  import opened Wrappers
  import opened Sequences
  import opened PluginTypes
  import opened PluginRegistry

  // Field shorthands, one per shape the literal uses.
  function Plain(t: FieldType): FieldSpec {
    FieldSpec(t, None, None, None)
  }

  function Required(t: FieldType): FieldSpec {
    FieldSpec(t, Some(true), None, None)
  }

  function Defaulted(t: FieldType, d: Literal): FieldSpec {
    FieldSpec(t, None, Some(d), None)
  }

  function RequiredManyToOne(target: string): FieldSpec {
    FieldSpec(RelationType, Some(true), None, Some(Relation(target, ManyToOne)))
  }

  const ForumCategory := PluginDataModel(
    "ForumCategory",
    [ ("id", Required(NumberType)),
      ("name", Required(StringType)),
      ("description", Plain(StringType)),
      ("slug", Required(StringType)),
      ("order", Defaulted(NumberType, NumberLit(0))),
      ("createdAt", Plain(DateType)) ],
    Some(ApiEndpoints(
      Some("/api/forum/categories"),
      Some("/api/forum/categories"),
      Some("/api/forum/categories/:id"),
      Some("/api/forum/categories/:id"),
      Some("/api/forum/categories/:id"))))

  const ForumTopic := PluginDataModel(
    "ForumTopic",
    [ ("id", Required(NumberType)),
      ("title", Required(StringType)),
      ("content", Required(StringType)),
      ("slug", Required(StringType)),
      ("categoryId", RequiredManyToOne("ForumCategory")),
      ("authorId", RequiredManyToOne("User")),
      ("views", Defaulted(NumberType, NumberLit(0))),
      ("isPinned", Defaulted(BooleanType, BoolLit(false))),
      ("isLocked", Defaulted(BooleanType, BoolLit(false))),
      ("createdAt", Plain(DateType)),
      ("updatedAt", Plain(DateType)) ],
    Some(ApiEndpoints(
      Some("/api/forum/topics"),
      Some("/api/forum/topics"),
      Some("/api/forum/topics/:id"),
      Some("/api/forum/topics/:id"),
      Some("/api/forum/topics/:id"))))

  const ForumPost := PluginDataModel(
    "ForumPost",
    [ ("id", Required(NumberType)),
      ("content", Required(StringType)),
      ("topicId", RequiredManyToOne("ForumTopic")),
      ("authorId", RequiredManyToOne("User")),
      ("createdAt", Plain(DateType)),
      ("updatedAt", Plain(DateType)) ],
    Some(ApiEndpoints(
      Some("/api/forum/posts"),
      Some("/api/forum/posts"),
      Some("/api/forum/posts/:id"),
      Some("/api/forum/posts/:id"),
      Some("/api/forum/posts/:id"))))

  /** The object literal handed to `createPlugin`. */
  const ForumConfig := Plugin(
    PluginMetadata(
      "forum",
      "Forum Module",
      "1.0.0",
      "Discussion forum with topics, posts, and categories",
      Some("PyraCMS"),
      None),
    Some([
      PluginRoute("/forum", Deferred("./forum/ForumList"), Some("Forum"), Some(false), None),
      PluginRoute("/forum/topic/:id", Deferred("./forum/TopicView"), Some("Topic"), Some(false), None),
      PluginRoute("/forum/new-topic", Deferred("./forum/NewTopic"), Some("New Topic"), Some(true), None)
    ]),
    Some([
      PluginNavItem("Forum", "/forum", Some(Deferred("ForumOutlined")), Some(10), Some(false), None)
    ]),
    Some([ForumCategory, ForumTopic, ForumPost]),
    None,
    Some(Deferred("forum.onInstall")),
    None,
    Some(Deferred("forum.onActivate")),
    Some(Deferred("forum.onDeactivate")),
    Some([
      ("postsPerPage", Setting(NumberSetting, "Posts per page", NumberLit(20), None)),
      ("allowAnonymousPosts", Setting(BooleanSetting, "Allow anonymous posts", BoolLit(false), None)),
      ("moderationEnabled", Setting(BooleanSetting, "Enable moderation", BoolLit(true), None))
    ]))

  /** `forumPlugin`. */
  const ForumPluginValue := CreatePlugin(ForumConfig)

  predicate HasAllEndpoints(m: PluginDataModel) {
    match m.apiEndpoints
    case None => false
    case Some(e) => e.list.Some? && e.create.Some? && e.read.Some? && e.update.Some? && e.delete.Some?
  }

  lemma ForumPluginIsItsLiteral()
    ensures ForumPluginValue == ForumConfig
    ensures ForumPluginValue.metadata.id == "forum"
  {
  }

  lemma ForumRoutes()
    ensures var rs := RoutesOf(ForumPluginValue);
            && |rs| == 3
            && rs[0].path == "/forum" && rs[1].path == "/forum/topic/:id" && rs[2].path == "/forum/new-topic"
            && forall i :: 0 <= i < 3 ==> (rs[i].requiresAuth == Some(true) <==> i == 2)
  {
  }

  lemma ForumNavigation()
    ensures NavigationOf(ForumPluginValue) ==
            [PluginNavItem("Forum", "/forum", Some(Deferred("ForumOutlined")), Some(10), Some(false), None)]
    ensures NavOrder(NavigationOf(ForumPluginValue)[0]) == 10
  {
  }

  lemma ForumDataModels()
    ensures var ms := DataModelsOf(ForumPluginValue);
            && |ms| == 3
            && ms[0].name == "ForumCategory" && ms[1].name == "ForumTopic" && ms[2].name == "ForumPost"
            && forall i :: 0 <= i < 3 ==> HasAllEndpoints(ms[i])
  {
  }

  /** The relation fields are required many-to-one references. */
  lemma ForumRelations()
    ensures Get(ForumTopic.fields, "categoryId") == Some(RequiredManyToOne("ForumCategory"))
    ensures Get(ForumTopic.fields, "authorId") == Some(RequiredManyToOne("User"))
    ensures Get(ForumPost.fields, "topicId") == Some(RequiredManyToOne("ForumTopic"))
    ensures Get(ForumPost.fields, "authorId") == Some(RequiredManyToOne("User"))
    ensures forall target :: RequiredManyToOne(target).required == Some(true)
    ensures forall target :: RequiredManyToOne(target).relation == Some(Relation(target, ManyToOne))
  {
    TopicCategory();
    TopicAuthor();
    PostTopic();
    PostAuthor();
  }

  // One relation field per lemma: `Get` unfolds over a literal field list,
  // and each fact is cheap on its own.

  lemma TopicCategory()
    ensures Get(ForumTopic.fields, "categoryId") == Some(RequiredManyToOne("ForumCategory"))
  {
    GetFirstMatch(ForumTopic.fields, 4);
  }

  lemma TopicAuthor()
    ensures Get(ForumTopic.fields, "authorId") == Some(RequiredManyToOne("User"))
  {
    GetFirstMatch(ForumTopic.fields, 5);
  }

  lemma PostTopic()
    ensures Get(ForumPost.fields, "topicId") == Some(RequiredManyToOne("ForumTopic"))
  {
    GetFirstMatch(ForumPost.fields, 2);
  }

  lemma PostAuthor()
    ensures Get(ForumPost.fields, "authorId") == Some(RequiredManyToOne("User"))
  {
    GetFirstMatch(ForumPost.fields, 3);
  }

  lemma ForumHooksAndSettings()
    ensures ForumPluginValue.onInstall.Some? && ForumPluginValue.onActivate.Some?
    ensures ForumPluginValue.onDeactivate.Some? && ForumPluginValue.onUninstall.None?
    ensures ForumPluginValue.apiExtensions.None?
    ensures var st := ForumPluginValue.settings.value;
            && Get(st, "postsPerPage").value.default == NumberLit(20)
            && Get(st, "allowAnonymousPosts").value.default == BoolLit(false)
            && Get(st, "moderationEnabled").value.default == BoolLit(true)
  {
  }

  /** On a fresh registry: registering the forum succeeds without running a
      hook; activating it awaits `onActivate` and makes its three data models
      the whole of `getAllDataModels`; deactivating it awaits `onDeactivate`
      and leaves no data model. */
  lemma ForumEndToEnd()
    ensures var reg := Register(Empty, ForumPluginValue);
            && reg.Success?
            && GetPlugin(reg.value, "forum") == Some(ForumPluginValue)
            && AllDataModels(reg.value) == []
            && var act := Activate(reg.value, "forum", Resolves);
               && act.outcome == Pass && act.ran == [OnActivate]
               && AllDataModels(act.after) == [ForumCategory, ForumTopic, ForumPost]
               && AllRoutes(act.after) == RoutesOf(ForumPluginValue)
               && AllNavigation(act.after) == NavigationOf(ForumPluginValue)
               && var deact := Deactivate(act.after, "forum", Resolves);
                  && deact.outcome == Pass && deact.ran == [OnDeactivate]
                  && AllDataModels(deact.after) == []
                  && GetPlugin(deact.after, "forum") == Some(ForumPluginValue)
  {
    var reg := Register(Empty, ForumPluginValue).value;
    assert reg == Registry([ForumPluginValue], []);
    var act := Activate(reg, "forum", Resolves);
    assert act.after == Registry([ForumPluginValue], ["forum"]);
    assert ActivePlugins(act.after) == [ForumPluginValue];
    FlatMapSingle(DataModelsOf, ForumPluginValue);
    FlatMapSingle(RoutesOf, ForumPluginValue);
    FlatMapSingle(NavigationOf, ForumPluginValue);
    var deact := Deactivate(act.after, "forum", Resolves);
    assert deact.after.active == [];
  }

  /** A rejecting `onActivate` propagates its reason and the forum stays inactive. */
  lemma ForumRejectedActivation(reason: string)
    ensures var reg := Register(Empty, ForumPluginValue).value;
            var act := Activate(reg, "forum", Rejects(reason));
            && act.outcome == Fail(HookRejected(reason))
            && act.after == reg
            && ActivePlugins(act.after) == []
            && AllDataModels(act.after) == []
  {
  }
}
