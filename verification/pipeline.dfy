/** The whole path of one notification: dispatched by the interceptor in a frame,
    stamped and forwarded by that frame's bridge, stored and posted by the hub, and
    appended to the panel's list. */
module Pipeline {
  import opened Wrappers
  import opened Events
  import Interceptor
  import Bridge
  import Hub
  import MessageList

  /** A notification the interceptor dispatched in a frame at `href` passes the
      bridge whenever the runtime is up, reaches the panel attached to the frame's tab
      first among that port's posts, stamped with `href` and otherwise unchanged, and
      the panel lists it when neither a type filter nor a search is set. */
  lemma NotificationReachesPanel(ctx: Interceptor.Context, j: nat, href: string,
                                 h: Hub.State, tab: Hub.TabId, v: MessageList.List)
    requires Interceptor.Valid(ctx) && j < |ctx.trace| && ctx.trace[j].Notified?
    requires Hub.Bounded(h) && tab in h.devtools
    requires MessageList.Valid(v) && v.filter == MessageList.All && v.search == ""
    ensures var rec := ctx.trace[j].rec;
      var sent := Bridge.OnSnifferEvent(Some(rec), href, true);
      && sent.Forwarded?
      && sent.envelope.data == rec.(frameUrl := Some(href))
      && var posts := Hub.PostsTo(Hub.OnMessage(h, Some(tab), sent.envelope).out, h.devtools[tab]);
      && |posts| >= 1 && posts[0] == sent.envelope.data
      && var w := MessageList.AddMessage(v, posts[0]);
      && w.messages[|v.messages|] == rec.(frameUrl := Some(href))
      && w.items == v.items + [|v.messages|]
  {
    var rec := ctx.trace[j].rec;
    Interceptor.NotificationsNameTheirSocket(ctx, j);
    var sent := Bridge.OnSnifferEvent(Some(rec), href, true);
    var d := sent.envelope.data;
    assert d == rec.(frameUrl := Some(href));
    var step := Hub.OnMessage(h, Some(tab), sent.envelope);
    assert Hub.PostsTo(step.out, h.devtools[tab]) == Hub.SlotPosts(h, tab, d, h.devtools[tab]);
    MessageList.VisibleAppend(v.messages, d, v.filter, v.search);
  }
}
