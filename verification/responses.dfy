// The Responses input translation of api/responses_request.go.
module Responses {
  // Typed items become chat messages, consecutive function calls one assistant turn. The
  // JSON decoder and the random call ids are parameters.

  import opened JsonValue
  import Text
  import opened Wrappers

  // parseOrdered, and the id newCallID gives to the item at an index.
  datatype Env = Env(parse: string -> Option<Json>, callID: nat -> string)

  // ---------------------------------------------------------------------------
  // Values

  function SetMember(members: seq<Member>, key: string, value: Json): seq<Member> {
    if members == [] then [Member(key, value)]
    else if members[0].key == key then [Member(key, value)] + members[1..]
    else [members[0]] + SetMember(members[1..], key, value)
  }

  // Replaces the first member with this key, or adds one at the end.
  function SetField(v: Json, key: string, value: Json): Json {
    Object(SetMember(if v.Object? then v.members else [], key, value))
  }

  lemma {:induction false} SetMemberSets(members: seq<Member>, key: string, value: Json, other: string)
    ensures FirstField(SetMember(members, key, value), other)
         == if other == key then Some(value) else FirstField(members, other)
  {
    if members != [] {
      SetMemberSets(members[1..], key, value, other);
      var s := SetMember(members, key, value);
      if members[0].key == key {
        assert s[1..] == members[1..];
      } else {
        assert s[1..] == SetMember(members[1..], key, value);
      }
    }
  }

  lemma SetFieldSets(v: Json, key: string, value: Json, other: string)
    ensures GetField(SetField(v, key, value), other) == if other == key then Some(value) else GetField(v, other)
  {
    SetMemberSets(if v.Object? then v.members else [], key, value, other);
  }

  function Role(msg: Json): string {
    GetString(msg, "role")
  }

  function SystemMessage(text: string): Json {
    Object([Member("role", String("system")), Member("content", String(text))])
  }

  function Message(role: string, content: Json): Json {
    Object([Member("role", String(role)), Member("content", content)])
  }

  function CallsMessage(calls: seq<Json>): Json {
    Object([Member("role", String("assistant")), Member("tool_calls", Array(calls))])
  }

  function ToolMessage(callID: string, output: string): Json {
    Object([Member("role", String("tool")), Member("tool_call_id", String(callID)), Member("content", String(output))])
  }

  // ---------------------------------------------------------------------------
  // Flushing

  // The messages so far, the calls waiting for a turn, the reasoning waiting for one, and
  // the system texts collected.
  datatype Conversation = Conversation(
    messages: seq<Json>, pending: seq<Json>, reasoning: string, systemParts: seq<string>)

  function WithReasoning(msg: Json, reasoning: string): Json {
    if reasoning != "" then SetField(msg, "reasoning_content", String(reasoning)) else msg
  }

  // Whether the last message can take the pending calls.
  predicate CanMerge(messages: seq<Json>, minMergeIndex: nat) {
    && |messages| > 0 && |messages| - 1 >= minMergeIndex
    && Role(messages[|messages| - 1]) == "assistant"
    && !HasField(messages[|messages| - 1], "tool_calls")
  }

  function Flushed(c: Conversation, minMergeIndex: nat): Conversation {
    if c.pending == [] then c
    else if CanMerge(c.messages, minMergeIndex) then
      var n := |c.messages| - 1;
      var last := WithReasoning(SetField(c.messages[n], "tool_calls", Array(c.pending)), c.reasoning);
      c.(messages := c.messages[..n] + [last], pending := [], reasoning := "")
    else
      c.(messages := c.messages + [WithReasoning(CallsMessage(c.pending), c.reasoning)], pending := [], reasoning := "")
  }

  method FlushPendingToolCalls(messages: seq<Json>, pending: seq<Json>, minMergeIndex: nat, pendingReasoning: string)
    returns (messages': seq<Json>, pending': seq<Json>, reasoning': string)
    ensures forall parts ::
              Conversation(messages', pending', reasoning', parts)
              == Flushed(Conversation(messages, pending, pendingReasoning, parts), minMergeIndex)
  {
    messages', pending', reasoning' := messages, pending, pendingReasoning;
    if |pending| == 0 {
      return;
    }
    var calls := Array(pending);
    if CanMerge(messages, minMergeIndex) {
      var last := SetField(messages[|messages| - 1], "tool_calls", calls);
      if pendingReasoning != "" {
        last := SetField(last, "reasoning_content", String(pendingReasoning));
      }
      messages' := messages[|messages| - 1 := last];
      assert messages' == messages[..|messages| - 1] + [last];
    } else {
      var msg := CallsMessage(pending);
      if pendingReasoning != "" {
        msg := SetField(msg, "reasoning_content", String(pendingReasoning));
      }
      messages' := messages + [msg];
    }
    pending' := [];
    reasoning' := "";
  }

  // ---------------------------------------------------------------------------
  // System messages

  function NonSystem(messages: seq<Json>): seq<Json>
    decreases |messages|
  {
    if messages == [] then []
    else
      var last := messages[|messages| - 1];
      NonSystem(messages[..|messages| - 1]) + (if Role(last) == "system" then [] else [last])
  }

  // The text a system message contributes.
  function SystemText(msg: Json): seq<string> {
    var c := GetField(msg, "content");
    if Role(msg) == "system" && c.Some? && c.value.String? && c.value.s != "" then [c.value.s] else []
  }

  function SystemTexts(messages: seq<Json>): seq<string>
    decreases |messages|
  {
    if messages == [] then [] else SystemTexts(messages[..|messages| - 1]) + SystemText(messages[|messages| - 1])
  }

  function Consolidated(messages: seq<Json>): seq<Json> {
    if SystemTexts(messages) == [] then messages
    else [SystemMessage(Text.Join(SystemTexts(messages), "\n\n"))] + NonSystem(messages)
  }

  method ConsolidateSystemMessages(messages: seq<Json>) returns (result: seq<Json>)
    ensures result == Consolidated(messages)
  {
    hide Role;
    var systemParts: seq<string> := [];
    var nonSystem: seq<Json> := [];
    for i := 0 to |messages|
      invariant systemParts == SystemTexts(messages[..i]) && nonSystem == NonSystem(messages[..i])
    {
      assert messages[..i + 1][..i] == messages[..i];
      var msg := messages[i];
      if Role(msg) == "system" {
        var c := GetField(msg, "content");
        if c.Some? && c.value.String? && c.value.s != "" {
          systemParts := systemParts + [c.value.s];
        }
      } else {
        nonSystem := nonSystem + [msg];
      }
    }
    assert messages[..|messages|] == messages;
    if |systemParts| == 0 {
      return messages;
    }
    return [SystemMessage(Text.Join(systemParts, "\n\n"))] + nonSystem;
  }

  // ---------------------------------------------------------------------------
  // Items

  function ItemType(item: Json): string {
    var t := GetField(item, "type");
    if t.Some? && t.value.String? then t.value.s
    else if HasField(item, "role") then "message"
    else ""
  }

  // What a content part adds to the joined text, and to the converted parts.
  function PartText(part: Json): seq<string> {
    if part.String? then [part.s]
    else if part.Object? && GetString(part, "type") in ["input_text", "text", "output_text"] then [GetString(part, "text")]
    else []
  }

  predicate IsImage(part: Json) {
    part.Object? && GetString(part, "type") == "input_image"
  }

  function Converted(part: Json): seq<Json> {
    if IsImage(part) then
      var url := if HasField(part, "image_url") then GetString(part, "image_url") else GetString(part, "url");
      var detail := if HasField(part, "detail") then GetString(part, "detail") else "auto";
      [Object([Member("type", String("input_image")), Member("image_url", String(url)), Member("detail", String(detail))])]
    else if PartText(part) != [] then
      [Object([Member("type", String("text")), Member("text", String(PartText(part)[0]))])]
    else []
  }

  function PartTexts(parts: seq<Json>): seq<string>
    decreases |parts|
  {
    if parts == [] then [] else PartTexts(parts[..|parts| - 1]) + PartText(parts[|parts| - 1])
  }

  function ConvertedParts(parts: seq<Json>): seq<Json>
    decreases |parts|
  {
    if parts == [] then [] else ConvertedParts(parts[..|parts| - 1]) + Converted(parts[|parts| - 1])
  }

  function Content(content: Json): Json {
    if content.Array? then
      if exists i :: 0 <= i < |content.items| && IsImage(content.items[i]) then Array(ConvertedParts(content.items))
      else String(Text.Join(PartTexts(content.items), "\n"))
    else if content.String? then content
    else String("")
  }

  method ConvertResponsesContent(content: Json) returns (r: Json)
    ensures r == Content(content)
  {
    hide PartText, Converted, IsImage;
    if !content.Array? {
      if content.String? {
        return content;
      }
      return String("");
    }
    var parts := content.items;
    var textParts: seq<string> := [];
    var converted: seq<Json> := [];
    var hasImage := false;
    for i := 0 to |parts|
      invariant textParts == PartTexts(parts[..i]) && converted == ConvertedParts(parts[..i])
      invariant hasImage <==> exists j :: 0 <= j < i && IsImage(parts[j])
    {
      assert parts[..i + 1][..i] == parts[..i];
      hasImage := hasImage || IsImage(parts[i]);
      textParts := textParts + PartText(parts[i]);
      converted := converted + Converted(parts[i]);
    }
    assert parts[..|parts|] == parts;
    if hasImage {
      return Array(converted);
    }
    if |textParts| > 0 {
      return String(Text.Join(textParts, "\n"));
    }
    return String("");
  }

  function ContentOrEmpty(v: Json): Json {
    if v.String? || (v.Array? && v.items != []) then v else String("")
  }

  function ItemRole(item: Json): string {
    var role := GetString(item, "role");
    if role == "" then "user" else if role == "developer" then "system" else role
  }

  function ItemContent(item: Json): Json {
    var c := GetField(item, "content");
    ContentOrEmpty(if c.Some? then Content(c.value) else Null)
  }

  function SummaryTexts(parts: seq<Json>): seq<string>
    decreases |parts|
  {
    if parts == [] then []
    else
      var p := parts[|parts| - 1];
      SummaryTexts(parts[..|parts| - 1])
      + (if p.Object? && GetString(p, "text") != "" then [GetString(p, "text")] else [])
  }

  function TryParseJSON(env: Env, s: string): Json {
    var t := Text.TrimSpace(s);
    if t == "" || (t[0] != '{' && t[0] != '[') then String(s)
    else
      var v := env.parse(t);
      if v.Some? then v.value else String(s)
  }

  // The call a function_call item at index i stands for.
  function CallOf(env: Env, i: nat, item: Json): Json {
    var a, b := GetString(item, "call_id"), GetString(item, "id");
    var id := if a != "" then a else if b != "" then b else env.callID(i);
    var args := if GetString(item, "arguments") != "" then GetString(item, "arguments") else "{}";
    Object([
      Member("id", String(id)),
      Member("type", String("function")),
      Member("function", Object([
        Member("name", String(GetString(item, "name"))),
        Member("arguments", TryParseJSON(env, args))]))])
  }

  function OutputOf(item: Json): Json {
    ToolMessage(GetString(item, "call_id"), GetString(item, "output"))
  }

  function AddMessage(c: Conversation, item: Json): Conversation {
    var role, content := ItemRole(item), ItemContent(item);
    if role == "system" then c.(systemParts := c.systemParts + [if content.String? then content.s else ""])
    else if role == "assistant" then
      c.(messages := c.messages + [WithReasoning(Message(role, content), c.reasoning)], reasoning := "")
    else c.(messages := c.messages + [Message(role, content)])
  }

  function AddReasoning(c: Conversation, item: Json): Conversation {
    var summary := GetField(item, "summary");
    if summary.Some? && summary.value.Array? && summary.value.items != [] then
      c.(reasoning := Text.Join(SummaryTexts(summary.value.items), "\n"))
    else c
  }

  // One turn of the loop over items.
  function AddItem(env: Env, minMergeIndex: nat, c: Conversation, i: nat, item: Json): Conversation {
    if !item.Object? then c
    else match ItemType(item)
      case "message" => AddMessage(Flushed(c, minMergeIndex), item)
      case "reasoning" => AddReasoning(c, item)
      case "function_call" => c.(pending := c.pending + [CallOf(env, i, item)])
      case "function_call_output" =>
        var f := Flushed(c, minMergeIndex);
        f.(messages := f.messages + [OutputOf(item)])
      case _ => c
  }

  function AddItems(env: Env, minMergeIndex: nat, c: Conversation, items: seq<Json>): Conversation
    decreases |items|
  {
    if items == [] then c
    else
      var n := |items| - 1;
      AddItem(env, minMergeIndex, AddItems(env, minMergeIndex, c, items[..n]), n, items[n])
  }

  function Finish(c: Conversation): seq<Json> {
    Consolidated(
      if c.systemParts != [] then [SystemMessage(Text.Join(c.systemParts, "\n\n"))] + c.messages else c.messages)
  }

  function Start(instructions: string, previous: seq<Json>): Conversation {
    Conversation(previous, [], "", if instructions != "" then [instructions] else [])
  }

  function Convert(env: Env, input: Json, instructions: string, previous: seq<Json>): seq<Json> {
    var c := Start(instructions, previous);
    match input
    case String(_) => Finish(c.(messages := previous + [Message("user", input)]))
    case Array(items) => Finish(Flushed(AddItems(env, |previous|, c, items), |previous|))
    case _ => Finish(c)
  }

  method ConvertResponsesInputToMessages(env: Env, input: Json, instructions: string, previousMessages: seq<Json>)
    returns (result: seq<Json>)
    ensures result == Convert(env, input, instructions, previousMessages)
  {
    hide Flushed, AddItem, Consolidated;
    var c := Start(instructions, previousMessages);
    if input.String? {
      c := c.(messages := c.messages + [Message("user", input)]);
    } else if input.Array? {
      var currentMessageStart := |previousMessages|;
      var items := input.items;
      ghost var c0 := c;
      for i := 0 to |items|
        invariant c == AddItems(env, currentMessageStart, c0, items[..i])
      {
        assert items[..i + 1][..i] == items[..i];
        c := ConvertItem(env, currentMessageStart, c, i, items[i]);
      }
      assert items[..|items|] == items;
      c := Flush(c, currentMessageStart);
    }
    var messages := c.messages;
    if |c.systemParts| > 0 {
      messages := [SystemMessage(Text.Join(c.systemParts, "\n\n"))] + messages;
    }
    result := ConsolidateSystemMessages(messages);
  }

  method Flush(c: Conversation, minMergeIndex: nat) returns (r: Conversation)
    ensures r == Flushed(c, minMergeIndex)
  {
    hide Flushed;
    var messages, pending, reasoning := FlushPendingToolCalls(c.messages, c.pending, minMergeIndex, c.reasoning);
    assert c == Conversation(c.messages, c.pending, c.reasoning, c.systemParts);
    return Conversation(messages, pending, reasoning, c.systemParts);
  }

  // The body of the loop over items.
  method ConvertItem(env: Env, minMergeIndex: nat, c: Conversation, i: nat, item: Json) returns (r: Conversation)
    ensures r == AddItem(env, minMergeIndex, c, i, item)
  {
    hide Flushed, Content, CallOf;
    r := c;
    if !item.Object? {
      return;
    }
    match ItemType(item) {
      case "message" =>
        r := Flush(c, minMergeIndex);
        var role := ItemRole(item);
        var content := Null;
        var field := GetField(item, "content");
        if field.Some? {
          content := ConvertResponsesContent(field.value);
        }
        content := ContentOrEmpty(content);
        if role == "system" {
          r := r.(systemParts := r.systemParts + [if content.String? then content.s else ""]);
        } else {
          var msg := Message(role, content);
          if role == "assistant" && r.reasoning != "" {
            msg := SetField(msg, "reasoning_content", String(r.reasoning));
            r := r.(reasoning := "");
          }
          r := r.(messages := r.messages + [msg]);
        }
      case "reasoning" =>
        var summary := GetField(item, "summary");
        if summary.Some? && summary.value.Array? && |summary.value.items| > 0 {
          r := r.(reasoning := Text.Join(SummaryTexts(summary.value.items), "\n"));
        }
      case "function_call" =>
        r := r.(pending := r.pending + [CallOf(env, i, item)]);
      case "function_call_output" =>
        r := Flush(c, minMergeIndex);
        r := r.(messages := r.messages + [OutputOf(item)]);
      case _ =>
    }
  }

  // ---------------------------------------------------------------------------
  // The timeline

  // What a conversation says and calls, in order.
  datatype Event =
    | Said(role: string, content: Json, callID: string)
    | Called(call: Json)

  function CallsIn(msg: Json): seq<Json> {
    var calls := GetField(msg, "tool_calls");
    if calls.Some? && calls.value.Array? then calls.value.items else []
  }

  function CallEvents(calls: seq<Json>): (events: seq<Event>)
    ensures |events| == |calls| && forall i :: 0 <= i < |calls| ==> events[i] == Called(calls[i])
  {
    seq(|calls|, i requires 0 <= i < |calls| => Called(calls[i]))
  }

  function Speech(msg: Json): seq<Event> {
    var content := GetField(msg, "content");
    if content.Some? then [Said(Role(msg), content.value, GetString(msg, "tool_call_id"))] else []
  }

  function Line(msg: Json): seq<Event> {
    if Role(msg) == "system" then [] else Speech(msg) + CallEvents(CallsIn(msg))
  }

  function Timeline(messages: seq<Json>): seq<Event>
    decreases |messages|
  {
    if messages == [] then [] else Timeline(messages[..|messages| - 1]) + Line(messages[|messages| - 1])
  }

  // What an input item should add, whatever comes before or after it.
  function ItemLine(env: Env, i: nat, item: Json): seq<Event> {
    if !item.Object? then []
    else match ItemType(item)
      case "message" => if ItemRole(item) == "system" then [] else [Said(ItemRole(item), ItemContent(item), "")]
      case "function_call" => [Called(CallOf(env, i, item))]
      case "function_call_output" =>
        [Said("tool", String(GetString(item, "output")), GetString(item, "call_id"))]
      case _ => []
  }

  function ItemsTimeline(env: Env, items: seq<Json>): seq<Event>
    decreases |items|
  {
    if items == [] then []
    else ItemsTimeline(env, items[..|items| - 1]) + ItemLine(env, |items| - 1, items[|items| - 1])
  }

  function InputTimeline(env: Env, input: Json): seq<Event> {
    match input
    case String(_) => [Said("user", input, "")]
    case Array(items) => ItemsTimeline(env, items)
    case _ => []
  }

  lemma TimelineSnoc(messages: seq<Json>, msg: Json)
    ensures Timeline(messages + [msg]) == Timeline(messages) + Line(msg)
  {
    assert (messages + [msg])[..|messages|] == messages;
  }

  // Fields of a message that the timeline does not look at, or only for calls.
  lemma SetFieldLine(msg: Json, key: string, value: Json)
    requires key == "reasoning_content" || key == "tool_calls"
    ensures Role(SetField(msg, key, value)) == Role(msg) && Speech(SetField(msg, key, value)) == Speech(msg)
    ensures CallsIn(SetField(msg, key, value)) == if key == "tool_calls" then (if value.Array? then value.items else []) else CallsIn(msg)
  {
    hide SetField;
    SetFieldSets(msg, key, value, "role");
    SetFieldSets(msg, key, value, "content");
    SetFieldSets(msg, key, value, "tool_call_id");
    SetFieldSets(msg, key, value, "tool_calls");
  }

  lemma WithReasoningLine(msg: Json, reasoning: string)
    ensures Line(WithReasoning(msg, reasoning)) == Line(msg)
  {
    hide SetField, Speech, CallsIn, Role;
    SetFieldLine(msg, "reasoning_content", String(reasoning));
  }

  lemma TwoFields(a: Member, b: Member, key: string)
    ensures FirstField([a, b], key) == if key == a.key then Some(a.value) else if key == b.key then Some(b.value) else None
  {
    assert [a, b][1..] == [b] && [b][1..] == [];
    assert FirstField([b], key) == if b.key == key then Some(b.value) else None;
  }

  lemma CallsMessageLine(calls: seq<Json>)
    ensures Line(CallsMessage(calls)) == CallEvents(calls)
  {
    var role, field := Member("role", String("assistant")), Member("tool_calls", Array(calls));
    TwoFields(role, field, "role");
    TwoFields(role, field, "content");
    TwoFields(role, field, "tool_calls");
    assert [] + CallEvents(calls) == CallEvents(calls);
  }

  lemma MessageLine(role: string, content: Json)
    requires role != "system"
    ensures Line(Message(role, content)) == [Said(role, content, "")]
  {
    var first, second := Member("role", String(role)), Member("content", content);
    TwoFields(first, second, "role");
    TwoFields(first, second, "content");
    TwoFields(first, second, "tool_calls");
    TwoFields(first, second, "tool_call_id");
  }

  lemma ToolMessageLine(callID: string, output: string)
    ensures Line(ToolMessage(callID, output)) == [Said("tool", String(output), callID)]
  {
    var id, content := Member("tool_call_id", String(callID)), Member("content", String(output));
    assert ToolMessage(callID, output).members[1..] == [id, content];
    TwoFields(id, content, "content");
    TwoFields(id, content, "tool_calls");
    TwoFields(id, content, "tool_call_id");
  }

  lemma SystemMessageLine(text: string)
    ensures Role(SystemMessage(text)) == "system" && Line(SystemMessage(text)) == []
  {
  }

  // The calls that wait come next in the timeline, and a flush puts them there.
  lemma FlushKeepsTimeline(c: Conversation, minMergeIndex: nat)
    ensures Timeline(Flushed(c, minMergeIndex).messages) == Timeline(c.messages) + CallEvents(c.pending)
    ensures Flushed(c, minMergeIndex).pending == []
  {
    hide SetField, Line, CallsMessage, WithReasoning, Role, HasField;
    if c.pending == [] {
      assert Timeline(c.messages) + [] == Timeline(c.messages);
    } else if CanMerge(c.messages, minMergeIndex) {
      var n := |c.messages| - 1;
      var last := SetField(c.messages[n], "tool_calls", Array(c.pending));
      MergedLine(c.messages[n], c.pending);
      WithReasoningLine(last, c.reasoning);
      TimelineSnoc(c.messages[..n], WithReasoning(last, c.reasoning));
      assert Timeline(c.messages[..n]) + (Line(c.messages[n]) + CallEvents(c.pending))
          == Timeline(c.messages[..n]) + Line(c.messages[n]) + CallEvents(c.pending);
    } else {
      CallsMessageLine(c.pending);
      WithReasoningLine(CallsMessage(c.pending), c.reasoning);
      TimelineSnoc(c.messages, WithReasoning(CallsMessage(c.pending), c.reasoning));
    }
  }

  lemma MergedLine(msg: Json, calls: seq<Json>)
    requires Role(msg) == "assistant" && !HasField(msg, "tool_calls")
    ensures Line(SetField(msg, "tool_calls", Array(calls))) == Line(msg) + CallEvents(calls)
  {
    hide SetField, Speech, Role;
    SetFieldLine(msg, "tool_calls", Array(calls));
    assert CallEvents([]) == [];
    assert Speech(msg) + [] + CallEvents(calls) == Speech(msg) + CallEvents(calls);
  }

  // One item adds exactly its line.
  lemma ItemAddsItsLine(env: Env, minMergeIndex: nat, c: Conversation, i: nat, item: Json)
    ensures var d := AddItem(env, minMergeIndex, c, i, item);
            Timeline(d.messages) + CallEvents(d.pending)
            == Timeline(c.messages) + CallEvents(c.pending) + ItemLine(env, i, item)
  {
    hide Flushed, Timeline, CallOf, Line, ItemContent, ItemRole, ItemType;
    var before := Timeline(c.messages) + CallEvents(c.pending);
    assert before + [] == before && CallEvents([]) == [];
    if item.Object? {
      FlushKeepsTimeline(c, minMergeIndex);
      match ItemType(item)
      case "message" => MessageAddsItsLine(Flushed(c, minMergeIndex), item);
      case "function_call" =>
        assert CallEvents(c.pending + [CallOf(env, i, item)]) == CallEvents(c.pending) + [Called(CallOf(env, i, item))];
        assert before + [Called(CallOf(env, i, item))]
            == Timeline(c.messages) + (CallEvents(c.pending) + [Called(CallOf(env, i, item))]);
      case "function_call_output" =>
        ToolMessageLine(GetString(item, "call_id"), GetString(item, "output"));
        TimelineSnoc(Flushed(c, minMergeIndex).messages, OutputOf(item));
        assert Timeline(Flushed(c, minMergeIndex).messages + [OutputOf(item)]) + []
            == Timeline(Flushed(c, minMergeIndex).messages + [OutputOf(item)]);
      case _ =>
    }
  }

  lemma MessageAddsItsLine(c: Conversation, item: Json)
    ensures var d := AddMessage(c, item);
            && d.pending == c.pending
            && Timeline(d.messages) == Timeline(c.messages)
                 + if ItemRole(item) == "system" then [] else [Said(ItemRole(item), ItemContent(item), "")]
  {
    hide Timeline, Line, ItemContent, ItemRole, WithReasoning;
    var role, content := ItemRole(item), ItemContent(item);
    if role == "system" {
      assert Timeline(c.messages) + [] == Timeline(c.messages);
    } else {
      MessageLine(role, content);
      WithReasoningLine(Message(role, content), c.reasoning);
      TimelineSnoc(c.messages, Message(role, content));
      TimelineSnoc(c.messages, WithReasoning(Message(role, content), c.reasoning));
    }
  }

  lemma {:induction false} ItemsAddTheirLines(env: Env, minMergeIndex: nat, c: Conversation, items: seq<Json>)
    ensures var d := AddItems(env, minMergeIndex, c, items);
            Timeline(d.messages) + CallEvents(d.pending)
            == Timeline(c.messages) + CallEvents(c.pending) + ItemsTimeline(env, items)
    decreases |items|
  {
    hide AddItem, ItemLine, Timeline;
    var before := Timeline(c.messages) + CallEvents(c.pending);
    if items == [] {
      assert before + [] == before;
    } else {
      var n := |items| - 1;
      ItemsAddTheirLines(env, minMergeIndex, c, items[..n]);
      ItemAddsItsLine(env, minMergeIndex, AddItems(env, minMergeIndex, c, items[..n]), n, items[n]);
      assert before + ItemsTimeline(env, items[..n]) + ItemLine(env, n, items[n])
          == before + (ItemsTimeline(env, items[..n]) + ItemLine(env, n, items[n]));
    }
  }

  lemma {:induction false} NonSystemTimeline(messages: seq<Json>)
    ensures Timeline(NonSystem(messages)) == Timeline(messages)
    decreases |messages|
  {
    hide Speech, CallsIn, Role;
    if messages != [] {
      var init, last := messages[..|messages| - 1], messages[|messages| - 1];
      NonSystemTimeline(init);
      if Role(last) == "system" {
        assert NonSystem(init) + [] == NonSystem(init) && Timeline(init) + [] == Timeline(init);
      } else {
        TimelineSnoc(NonSystem(init), last);
      }
    }
  }

  lemma {:induction false} TimelineAfterSystem(text: string, messages: seq<Json>)
    ensures Timeline([SystemMessage(text)] + messages) == Timeline(messages)
    decreases |messages|
  {
    hide Line, SystemMessage;
    var front := [SystemMessage(text)];
    SystemMessageLine(text);
    if messages == [] {
      assert front + messages == [] + [SystemMessage(text)];
      TimelineSnoc([], SystemMessage(text));
    } else {
      var init, last := messages[..|messages| - 1], messages[|messages| - 1];
      TimelineAfterSystem(text, init);
      assert front + messages == front + init + [last];
      TimelineSnoc(front + init, last);
    }
  }

  lemma FinishKeepsTimeline(c: Conversation)
    ensures Timeline(Finish(c)) == Timeline(c.messages)
  {
    hide Timeline, NonSystem, SystemTexts, SystemMessage;
    var text := Text.Join(c.systemParts, "\n\n");
    TimelineAfterSystem(text, c.messages);
    var messages := if c.systemParts != [] then [SystemMessage(text)] + c.messages else c.messages;
    NonSystemTimeline(messages);
    TimelineAfterSystem(Text.Join(SystemTexts(messages), "\n\n"), NonSystem(messages));
  }

  // For every input: the resulting messages say and call what the previous ones did, and
  // then, item by item, what the input does. No call is lost, doubled or moved, each call
  // output stands after all calls of earlier items and before those of later ones, and each
  // message keeps its role and content.
  lemma ConvertKeepsTheTimeline(env: Env, input: Json, instructions: string, previous: seq<Json>)
    ensures Timeline(Convert(env, input, instructions, previous)) == Timeline(previous) + InputTimeline(env, input)
  {
    hide Timeline, Flushed, Finish, AddItems, Message;
    var c := Start(instructions, previous);
    assert Timeline(previous) + [] == Timeline(previous) && CallEvents([]) == [];
    match input
    case String(_) =>
      MessageLine("user", input);
      TimelineSnoc(previous, Message("user", input));
      FinishKeepsTimeline(c.(messages := previous + [Message("user", input)]));
    case Array(items) =>
      var d := AddItems(env, |previous|, c, items);
      ItemsAddTheirLines(env, |previous|, c, items);
      FlushKeepsTimeline(d, |previous|);
      FinishKeepsTimeline(Flushed(d, |previous|));
    case _ =>
      FinishKeepsTimeline(c);
  }

  // ---------------------------------------------------------------------------
  // The previous messages

  predicate StartsWith(messages: seq<Json>, previous: seq<Json>) {
    |previous| <= |messages| && messages[..|previous|] == previous
  }

  lemma FlushKeepsPrevious(c: Conversation, previous: seq<Json>)
    requires StartsWith(c.messages, previous)
    ensures StartsWith(Flushed(c, |previous|).messages, previous)
  {
  }

  lemma {:induction false} ItemsKeepPrevious(env: Env, c: Conversation, items: seq<Json>, previous: seq<Json>)
    requires StartsWith(c.messages, previous)
    ensures StartsWith(AddItems(env, |previous|, c, items).messages, previous)
    decreases |items|
  {
    hide Flushed, CallOf, ItemContent, ItemRole, Message, OutputOf;
    if items != [] {
      var d := AddItems(env, |previous|, c, items[..|items| - 1]);
      ItemsKeepPrevious(env, c, items[..|items| - 1], previous);
      FlushKeepsPrevious(d, previous);
    }
  }

  lemma {:induction false} NonSystemJoin(a: seq<Json>, b: seq<Json>)
    ensures NonSystem(a + b) == NonSystem(a) + NonSystem(b)
    decreases |b|
  {
    hide Role;
    if b == [] {
      assert a + b == a && NonSystem(a) + [] == NonSystem(a);
    } else {
      var init, last := b[..|b| - 1], b[|b| - 1];
      NonSystemJoin(a, init);
      assert (a + b)[..|a + b| - 1] == a + init;
      var tail := if Role(last) == "system" then [] else [last];
      assert NonSystem(a) + NonSystem(init) + tail == NonSystem(a) + (NonSystem(init) + tail);
    }
  }

  lemma NonSystemFront(text: string, messages: seq<Json>)
    ensures NonSystem([SystemMessage(text)] + messages) == NonSystem(messages)
  {
    hide Role, SystemMessage;
    SystemMessageLine(text);
    NonSystemJoin([SystemMessage(text)], messages);
    assert NonSystem([SystemMessage(text)]) == [];
    assert [] + NonSystem(messages) == NonSystem(messages);
  }

  lemma {:induction false} NonSystemTwice(messages: seq<Json>)
    ensures NonSystem(NonSystem(messages)) == NonSystem(messages)
    ensures forall msg :: msg in NonSystem(messages) ==> Role(msg) != "system"
    decreases |messages|
  {
    hide Role;
    if messages != [] {
      var init, last := messages[..|messages| - 1], messages[|messages| - 1];
      NonSystemTwice(init);
      if Role(last) != "system" {
        assert (NonSystem(init) + [last])[..|NonSystem(init)|] == NonSystem(init);
      } else {
        assert NonSystem(init) + [] == NonSystem(init);
      }
    }
  }

  lemma FinishKeepsNonSystem(c: Conversation)
    ensures NonSystem(Finish(c)) == NonSystem(c.messages)
  {
    hide NonSystem, SystemTexts, SystemMessage;
    var text := Text.Join(c.systemParts, "\n\n");
    NonSystemFront(text, c.messages);
    var messages := if c.systemParts != [] then [SystemMessage(text)] + c.messages else c.messages;
    NonSystemFront(Text.Join(SystemTexts(messages), "\n\n"), NonSystem(messages));
    NonSystemTwice(messages);
  }

  lemma PrefixOfNonSystem(messages: seq<Json>, previous: seq<Json>)
    requires StartsWith(messages, previous)
    ensures NonSystem(previous) <= NonSystem(messages)
  {
    hide NonSystem;
    NonSystemJoin(previous, messages[|previous|..]);
    assert messages == previous + messages[|previous|..];
  }

  // The previous messages come first, each exactly as it was: none gains calls.
  lemma PreviousAreUntouched(env: Env, input: Json, instructions: string, previous: seq<Json>)
    ensures NonSystem(previous) <= NonSystem(Convert(env, input, instructions, previous))
  {
    hide NonSystem, Flushed, Finish, AddItems, Message;
    var c := Start(instructions, previous);
    match input
    case String(_) =>
      var d := c.(messages := previous + [Message("user", input)]);
      PrefixOfNonSystem(d.messages, previous);
      FinishKeepsNonSystem(d);
    case Array(items) =>
      ItemsKeepPrevious(env, c, items, previous);
      var d := AddItems(env, |previous|, c, items);
      FlushKeepsPrevious(d, previous);
      PrefixOfNonSystem(Flushed(d, |previous|).messages, previous);
      FinishKeepsNonSystem(Flushed(d, |previous|));
    case _ =>
      FinishKeepsNonSystem(c);
  }

  // When there is any system text, all of it is in the first message and no other message
  // is a system one.
  lemma OneSystemMessage(messages: seq<Json>)
    requires SystemTexts(messages) != []
    ensures var r := Consolidated(messages);
            && r[0] == SystemMessage(Text.Join(SystemTexts(messages), "\n\n"))
            && forall k :: 0 < k < |r| ==> Role(r[k]) != "system"
  {
    hide NonSystem, SystemTexts, Role, SystemMessage;
    NonSystemTwice(messages);
    var r := Consolidated(messages);
    forall k | 0 < k < |r|
      ensures Role(r[k]) != "system"
    {
      assert r[k] == NonSystem(messages)[k - 1];
    }
  }

  // ---------------------------------------------------------------------------
  // System text

  // The text a developer or system item contributes.
  function ItemSystem(item: Json): seq<string> {
    if item.Object? && ItemType(item) == "message" && ItemRole(item) == "system" then
      [if ItemContent(item).String? then ItemContent(item).s else ""]
    else []
  }

  function ItemsSystem(items: seq<Json>): seq<string>
    decreases |items|
  {
    if items == [] then [] else ItemsSystem(items[..|items| - 1]) + ItemSystem(items[|items| - 1])
  }

  // The system texts of one request: the instructions, then the items' in order.
  function RequestSystem(input: Json, instructions: string): seq<string> {
    (if instructions != "" then [instructions] else []) + (if input.Array? then ItemsSystem(input.items) else [])
  }

  lemma SystemTextsSnoc(messages: seq<Json>, msg: Json)
    ensures SystemTexts(messages + [msg]) == SystemTexts(messages) + SystemText(msg)
  {
    assert (messages + [msg])[..|messages|] == messages;
  }

  lemma OthersAddNone(messages: seq<Json>, msg: Json)
    requires Role(msg) != "system"
    ensures SystemTexts(messages + [msg]) == SystemTexts(messages)
  {
    hide SystemTexts, Role;
    SystemTextsSnoc(messages, msg);
    assert SystemTexts(messages) + [] == SystemTexts(messages);
  }

  lemma WithReasoningRole(msg: Json, reasoning: string)
    ensures Role(WithReasoning(msg, reasoning)) == Role(msg)
  {
    hide SetField;
    SetFieldLine(msg, "reasoning_content", String(reasoning));
  }

  lemma FlushAddsNoSystem(c: Conversation, minMergeIndex: nat)
    ensures SystemTexts(Flushed(c, minMergeIndex).messages) == SystemTexts(c.messages)
    ensures Flushed(c, minMergeIndex).systemParts == c.systemParts
  {
    hide SystemTexts, SetField, WithReasoning, Role, CallsMessage;
    if c.pending != [] && CanMerge(c.messages, minMergeIndex) {
      var n := |c.messages| - 1;
      var last := SetField(c.messages[n], "tool_calls", Array(c.pending));
      SetFieldLine(c.messages[n], "tool_calls", Array(c.pending));
      WithReasoningRole(last, c.reasoning);
      OthersAddNone(c.messages[..n], WithReasoning(last, c.reasoning));
      OthersAddNone(c.messages[..n], c.messages[n]);
      assert c.messages == c.messages[..n] + [c.messages[n]];
    } else if c.pending != [] {
      CallsMessageRole(c.pending);
      WithReasoningRole(CallsMessage(c.pending), c.reasoning);
      OthersAddNone(c.messages, WithReasoning(CallsMessage(c.pending), c.reasoning));
    }
  }

  lemma CallsMessageRole(calls: seq<Json>)
    ensures Role(CallsMessage(calls)) == "assistant"
  {
  }

  lemma ItemAddsItsSystem(env: Env, minMergeIndex: nat, c: Conversation, i: nat, item: Json)
    ensures var d := AddItem(env, minMergeIndex, c, i, item);
            && SystemTexts(d.messages) == SystemTexts(c.messages)
            && d.systemParts == c.systemParts + ItemSystem(item)
  {
    hide Flushed, SystemTexts, CallOf, ItemContent, ItemRole, ItemType, WithReasoning, Role;
    FlushAddsNoSystem(c, minMergeIndex);
    assert c.systemParts + [] == c.systemParts;
    if item.Object? && ItemType(item) == "message" && ItemRole(item) != "system" {
      var f, msg := Flushed(c, minMergeIndex), Message(ItemRole(item), ItemContent(item));
      MessageRole(ItemRole(item), ItemContent(item));
      WithReasoningRole(msg, f.reasoning);
      OthersAddNone(f.messages, msg);
      OthersAddNone(f.messages, WithReasoning(msg, f.reasoning));
    } else if item.Object? && ItemType(item) == "function_call_output" {
      ToolMessageRole(GetString(item, "call_id"), GetString(item, "output"));
      OthersAddNone(Flushed(c, minMergeIndex).messages, OutputOf(item));
    }
  }

  lemma MessageRole(role: string, content: Json)
    ensures Role(Message(role, content)) == role
  {
  }

  lemma ToolMessageRole(callID: string, output: string)
    ensures Role(ToolMessage(callID, output)) == "tool"
  {
  }

  lemma {:induction false} ItemsAddTheirSystem(env: Env, minMergeIndex: nat, c: Conversation, items: seq<Json>)
    ensures var d := AddItems(env, minMergeIndex, c, items);
            && SystemTexts(d.messages) == SystemTexts(c.messages)
            && d.systemParts == c.systemParts + ItemsSystem(items)
    decreases |items|
  {
    hide AddItem, ItemSystem, SystemTexts;
    if items == [] {
      assert c.systemParts + [] == c.systemParts;
    } else {
      var n := |items| - 1;
      ItemsAddTheirSystem(env, minMergeIndex, c, items[..n]);
      ItemAddsItsSystem(env, minMergeIndex, AddItems(env, minMergeIndex, c, items[..n]), n, items[n]);
      assert c.systemParts + ItemsSystem(items[..n]) + ItemSystem(items[n])
          == c.systemParts + (ItemsSystem(items[..n]) + ItemSystem(items[n]));
    }
  }

  lemma JoinCons(first: string, rest: seq<string>, sep: string)
    requires rest != []
    ensures Text.Join([first] + rest, sep) == first + sep + Text.Join(rest, sep)
  {
    assert ([first] + rest)[1..] == rest;
  }

  lemma JoinOne(part: string, sep: string)
    ensures Text.Join([part], sep) == part
  {
  }

  lemma {:induction false} JoinAppend(parts: seq<string>, rest: seq<string>, sep: string)
    requires parts != [] && rest != []
    ensures Text.Join(parts + rest, sep) == Text.Join(parts, sep) + sep + Text.Join(rest, sep)
  {
    hide Text.Join;
    var first, more := parts[0], parts[1..];
    if more == [] {
      assert parts == [first];
      JoinOne(first, sep);
      JoinCons(first, rest, sep);
    } else {
      assert parts == [first] + more && parts + rest == [first] + (more + rest);
      JoinCons(first, more, sep);
      JoinCons(first, more + rest, sep);
      JoinAppend(more, rest, sep);
      JoinsRegroup(first, sep, Text.Join(more, sep), Text.Join(rest, sep));
    }
  }

  lemma JoinsRegroup(first: string, sep: string, more: string, rest: string)
    ensures first + sep + (more + sep + rest) == first + sep + more + sep + rest
  {
    Text.Associative(first + sep, more + sep, rest);
    Text.Associative(first + sep, more, sep);
  }

  // Texts already joined are joined on.
  lemma JoinJoined(parts: seq<string>, rest: seq<string>, sep: string)
    requires parts != []
    ensures Text.Join([Text.Join(parts, sep)] + rest, sep) == Text.Join(parts + rest, sep)
  {
    hide Text.Join;
    JoinOne(Text.Join(parts, sep), sep);
    if rest == [] {
      assert [Text.Join(parts, sep)] + rest == [Text.Join(parts, sep)] && parts + rest == parts;
    } else {
      JoinCons(Text.Join(parts, sep), rest, sep);
      JoinAppend(parts, rest, sep);
    }
  }

  lemma {:induction false} SystemTextsFront(text: string, messages: seq<Json>)
    ensures SystemTexts([SystemMessage(text)] + messages) == (if text != "" then [text] else []) + SystemTexts(messages)
    decreases |messages|
  {
    var front := [SystemMessage(text)];
    if messages == [] {
      assert front + messages == front && front[..0] == [];
      SystemMessageText(text);
    } else {
      hide SystemText, SystemMessage;
      var init, last := messages[..|messages| - 1], messages[|messages| - 1];
      SystemTextsFront(text, init);
      assert front + messages == front + init + [last];
      SystemTextsSnoc(front + init, last);
      var head := if text != "" then [text] else [];
      assert head + SystemTexts(init) + SystemText(last) == head + (SystemTexts(init) + SystemText(last));
    }
  }

  lemma SystemMessageText(text: string)
    ensures SystemText(SystemMessage(text)) == if text != "" then [text] else []
  {
    TwoFields(Member("role", String("system")), Member("content", String(text)), "content");
  }

  // The system texts of a result: the request's, unless they are all blank together, then
  // those of the previous messages.
  function AllSystem(input: Json, instructions: string, previous: seq<Json>): seq<string> {
    var own := RequestSystem(input, instructions);
    (if Text.Join(own, "\n\n") != "" then own else []) + SystemTexts(previous)
  }

  lemma FinishedSystem(c: Conversation)
    requires (if Text.Join(c.systemParts, "\n\n") != "" then c.systemParts else []) + SystemTexts(c.messages) != []
    ensures var all := (if Text.Join(c.systemParts, "\n\n") != "" then c.systemParts else []) + SystemTexts(c.messages);
            var r := Finish(c);
            && r != [] && r[0] == SystemMessage(Text.Join(all, "\n\n"))
            && forall k :: 0 < k < |r| ==> Role(r[k]) != "system"
  {
    hide SystemTexts, SystemMessage, Role, NonSystem;
    var own := Text.Join(c.systemParts, "\n\n");
    var messages := if c.systemParts != [] then [SystemMessage(own)] + c.messages else c.messages;
    SystemTextsFront(own, c.messages);
    if own != "" {
      JoinJoined(c.systemParts, SystemTexts(c.messages), "\n\n");
    } else {
      assert [] + SystemTexts(c.messages) == SystemTexts(c.messages);
    }
    OneSystemMessage(messages);
  }

  // For every input: the instructions, the developer and system items in order and then
  // the system texts of the previous messages are, joined, the first message, and no other
  // message is a system one.
  lemma SystemComesFirst(env: Env, input: Json, instructions: string, previous: seq<Json>)
    requires AllSystem(input, instructions, previous) != []
    ensures var r := Convert(env, input, instructions, previous);
            && r != [] && r[0] == SystemMessage(Text.Join(AllSystem(input, instructions, previous), "\n\n"))
            && forall k :: 0 < k < |r| ==> Role(r[k]) != "system"
  {
    hide SystemTexts, Flushed, Finish, AddItems, Message, Role, SystemMessage;
    var c := Start(instructions, previous);
    assert c.systemParts + [] == c.systemParts;
    match input
    case String(_) =>
      MessageRole("user", input);
      OthersAddNone(previous, Message("user", input));
      FinishedSystem(c.(messages := previous + [Message("user", input)]));
    case Array(items) =>
      var d := AddItems(env, |previous|, c, items);
      ItemsAddTheirSystem(env, |previous|, c, items);
      FlushAddsNoSystem(d, |previous|);
      FinishedSystem(Flushed(d, |previous|));
    case _ =>
      FinishedSystem(c);
  }

  // ---------------------------------------------------------------------------
  // Reasoning

  function ReasoningOf(msg: Json): string {
    GetString(msg, "reasoning_content")
  }

  function OneUnlessEmpty(s: string): seq<string> {
    if s != "" then [s] else []
  }

  // The reasoning the messages carry, in order; system messages aside.
  function Thoughts(messages: seq<Json>): seq<string>
    decreases |messages|
  {
    if messages == [] then []
    else Thoughts(messages[..|messages| - 1]) + Thought(messages[|messages| - 1])
  }

  function Thought(msg: Json): seq<string> {
    if Role(msg) == "system" then [] else OneUnlessEmpty(ReasoningOf(msg))
  }

  // What is carried and what still waits for an assistant turn.
  function Ledger(c: Conversation): seq<string> {
    Thoughts(c.messages) + OneUnlessEmpty(c.reasoning)
  }

  // The reasoning an item brings.
  function ItemThought(item: Json): seq<string> {
    if BringsReasoning(item) then OneUnlessEmpty(Text.Join(SummaryTexts(GetField(item, "summary").value.items), "\n"))
    else []
  }

  predicate BringsReasoning(item: Json) {
    var summary := GetField(item, "summary");
    && item.Object? && ItemType(item) == "reasoning"
    && summary.Some? && summary.value.Array? && summary.value.items != []
  }

  // A flush that would put waiting reasoning in the place of a turn's own.
  predicate FlushLoses(c: Conversation, minMergeIndex: nat) {
    && c.pending != [] && CanMerge(c.messages, minMergeIndex)
    && c.reasoning != "" && ReasoningOf(c.messages[|c.messages| - 1]) != ""
  }

  // An item at which one reasoning is lost: a further reasoning item while one waits, or a
  // turn whose calls bring a second reasoning.
  predicate Loses(minMergeIndex: nat, c: Conversation, item: Json) {
    if BringsReasoning(item) then c.reasoning != ""
    else
      && item.Object? && (ItemType(item) == "message" || ItemType(item) == "function_call_output")
      && FlushLoses(c, minMergeIndex)
  }

  lemma ThoughtsSnoc(messages: seq<Json>, msg: Json)
    ensures Thoughts(messages + [msg]) == Thoughts(messages) + Thought(msg)
  {
    assert (messages + [msg])[..|messages|] == messages;
  }

  lemma WithReasoningThought(msg: Json, reasoning: string)
    requires Role(msg) != "system"
    ensures Thought(WithReasoning(msg, reasoning)) == OneUnlessEmpty(if reasoning != "" then reasoning else ReasoningOf(msg))
  {
    hide SetField;
    WithReasoningRole(msg, reasoning);
    SetFieldSets(msg, "reasoning_content", String(reasoning), "reasoning_content");
  }

  // The calls of a turn take the waiting reasoning with them.
  lemma CallsTakeReasoning(c: Conversation, minMergeIndex: nat)
    requires c.pending != []
    ensures var f := Flushed(c, minMergeIndex);
            && f.messages != [] && f.reasoning == ""
            && var last := f.messages[|f.messages| - 1];
            && Role(last) == "assistant" && CallsIn(last) == c.pending
            && (c.reasoning != "" ==> ReasoningOf(last) == c.reasoning)
  {
    hide SetField, Role, HasField, CallsIn;
    if CanMerge(c.messages, minMergeIndex) {
      var n := |c.messages| - 1;
      var last := SetField(c.messages[n], "tool_calls", Array(c.pending));
      SetFieldLine(c.messages[n], "tool_calls", Array(c.pending));
      SetFieldLine(last, "reasoning_content", String(c.reasoning));
      SetFieldSets(last, "reasoning_content", String(c.reasoning), "reasoning_content");
    } else {
      var msg := CallsMessage(c.pending);
      CallsMessageRole(c.pending);
      CallsMessageCalls(c.pending);
      SetFieldLine(msg, "reasoning_content", String(c.reasoning));
      SetFieldSets(msg, "reasoning_content", String(c.reasoning), "reasoning_content");
    }
  }

  lemma CallsMessageCalls(calls: seq<Json>)
    ensures CallsIn(CallsMessage(calls)) == calls && ReasoningOf(CallsMessage(calls)) == ""
  {
    var role, field := Member("role", String("assistant")), Member("tool_calls", Array(calls));
    TwoFields(role, field, "tool_calls");
    TwoFields(role, field, "reasoning_content");
  }

  lemma FlushKeepsThoughts(c: Conversation, minMergeIndex: nat)
    ensures var f := Flushed(c, minMergeIndex);
            && |Ledger(f)| == |Ledger(c)| - (if FlushLoses(c, minMergeIndex) then 1 else 0)
            && (!FlushLoses(c, minMergeIndex) ==> Ledger(f) == Ledger(c))
  {
    hide SetField, WithReasoning, Role, HasField, CallsMessage, Thought, ReasoningOf;
    var before := Thoughts(c.messages);
    if c.pending != [] {
      if CanMerge(c.messages, minMergeIndex) {
        MergeKeepsThoughts(c, minMergeIndex);
      } else {
        CallsMessageRole(c.pending);
        CallsMessageCalls(c.pending);
        WithReasoningThought(CallsMessage(c.pending), c.reasoning);
        ThoughtsSnoc(c.messages, WithReasoning(CallsMessage(c.pending), c.reasoning));
        var after := Thoughts(Flushed(c, minMergeIndex).messages);
        assert after + [] == after;
      }
    }
  }

  lemma MergeKeepsThoughts(c: Conversation, minMergeIndex: nat)
    requires c.pending != [] && CanMerge(c.messages, minMergeIndex)
    ensures var f := Flushed(c, minMergeIndex);
            && |Ledger(f)| == |Ledger(c)| - (if FlushLoses(c, minMergeIndex) then 1 else 0)
            && (!FlushLoses(c, minMergeIndex) ==> Ledger(f) == Ledger(c))
  {
    hide SetField, WithReasoning, Role, HasField, ReasoningOf, Thoughts;
    var n := |c.messages| - 1;
    var old', init := c.messages[n], c.messages[..n];
    var last := SetField(old', "tool_calls", Array(c.pending));
    SetFieldLine(old', "tool_calls", Array(c.pending));
    MergeKeepsOwn(old', c.pending);
    WithReasoningThought(last, c.reasoning);
    ThoughtsSnoc(init, WithReasoning(last, c.reasoning));
    ThoughtsSnoc(init, old');
    assert c.messages == init + [old'];
    var after := Thoughts(Flushed(c, minMergeIndex).messages);
    assert after + [] == after;
    assert Thoughts(init) + [] == Thoughts(init);
  }

  lemma MergeKeepsOwn(msg: Json, calls: seq<Json>)
    ensures ReasoningOf(SetField(msg, "tool_calls", Array(calls))) == ReasoningOf(msg)
  {
    hide SetField;
    SetFieldSets(msg, "tool_calls", Array(calls), "reasoning_content");
  }

  lemma MessageKeepsThoughts(c: Conversation, item: Json)
    ensures Ledger(AddMessage(c, item)) == Ledger(c)
  {
    hide Thoughts, Thought, ItemContent, ItemRole, WithReasoning, Role;
    var role, content := ItemRole(item), ItemContent(item);
    if role != "system" {
      var msg := Message(role, content);
      MessageRole(role, content);
      PlainMessageThought(role, content);
      WithReasoningThought(msg, c.reasoning);
      ThoughtsSnoc(c.messages, msg);
      ThoughtsSnoc(c.messages, WithReasoning(msg, c.reasoning));
      assert Thoughts(c.messages) + [] == Thoughts(c.messages);
      var carried := Thoughts(c.messages) + OneUnlessEmpty(c.reasoning);
      assert carried + [] == carried;
    }
  }

  lemma PlainMessageThought(role: string, content: Json)
    ensures ReasoningOf(Message(role, content)) == "" && Thought(Message(role, content)) == []
  {
    TwoFields(Member("role", String(role)), Member("content", content), "reasoning_content");
  }

  lemma OutputKeepsThoughts(f: Conversation, item: Json)
    ensures Ledger(f.(messages := f.messages + [OutputOf(item)])) == Ledger(f)
  {
    hide Thoughts;
    ThoughtsSnoc(f.messages, OutputOf(item));
    ToolMessageThought(GetString(item, "call_id"), GetString(item, "output"));
    assert Thoughts(f.messages) + [] == Thoughts(f.messages);
  }

  lemma ToolMessageThought(callID: string, output: string)
    ensures Thought(ToolMessage(callID, output)) == []
  {
    var id, content := Member("tool_call_id", String(callID)), Member("content", String(output));
    assert ToolMessage(callID, output).members[1..] == [id, content];
    TwoFields(id, content, "reasoning_content");
  }

  // One item adds its reasoning to what is carried or waits, and loses one exactly under
  // the two conditions.
  lemma ItemKeepsThoughtsIff(env: Env, minMergeIndex: nat, c: Conversation, i: nat, item: Json)
    ensures var d := AddItem(env, minMergeIndex, c, i, item);
            && |Ledger(d)| == |Ledger(c)| + |ItemThought(item)| - (if Loses(minMergeIndex, c, item) then 1 else 0)
            && (Ledger(d) == Ledger(c) + ItemThought(item) <==> !Loses(minMergeIndex, c, item))
  {
    hide Flushed, Thoughts, CallOf, ItemContent, ItemRole, ItemType, FlushLoses;
    assert Ledger(c) + [] == Ledger(c);
    if item.Object? {
      FlushKeepsThoughts(c, minMergeIndex);
      var f := Flushed(c, minMergeIndex);
      match ItemType(item)
      case "message" => MessageKeepsThoughts(f, item);
      case "reasoning" => ReasoningKeepsThoughts(c, item);
      case "function_call" =>
      case "function_call_output" => OutputKeepsThoughts(f, item);
      case _ =>
    }
  }

  lemma ReasoningKeepsThoughts(c: Conversation, item: Json)
    requires item.Object? && ItemType(item) == "reasoning"
    ensures var d := AddReasoning(c, item);
            && |Ledger(d)| == |Ledger(c)| + |ItemThought(item)| - (if BringsReasoning(item) && c.reasoning != "" then 1 else 0)
            && (!(BringsReasoning(item) && c.reasoning != "") ==> Ledger(d) == Ledger(c) + ItemThought(item))
  {
    hide Thoughts, ItemType;
    assert Thoughts(c.messages) + [] == Thoughts(c.messages);
    assert Ledger(c) + [] == Ledger(c);
  }

  function ItemsThoughts(items: seq<Json>): seq<string>
    decreases |items|
  {
    if items == [] then [] else ItemsThoughts(items[..|items| - 1]) + ItemThought(items[|items| - 1])
  }

  // ---------------------------------------------------------------------------
  // Which reasoning is lost, read off the items

  // The last message as a turn for calls: it takes none, or it does and has no reasoning of
  // its own, or it does and has.
  datatype Turn = Closed | Bare | Reasoned

  // Whether reasoning waits for a turn, whether calls do, and the last turn.
  datatype Outlook = Outlook(waits: bool, calls: bool, turn: Turn)
  {
    function Flush(): Outlook {
      if calls then Outlook(false, false, Closed) else this
    }

    function Next(item: Json): Outlook {
      if !item.Object? then this
      else match ItemType(item)
        case "message" =>
          var f := Flush();
          var role := ItemRole(item);
          if role == "system" then f
          else if role == "assistant" then f.(waits := false, turn := if f.waits then Reasoned else Bare)
          else f.(turn := Closed)
        case "reasoning" => if BringsReasoning(item) then this.(waits := ItemThought(item) != []) else this
        case "function_call" => this.(calls := true)
        case "function_call_output" => Flush().(turn := Closed)
        case _ => this
    }

    // Calls with reasoning go to a turn that has its own.
    predicate Clashes() {
      calls && waits && turn == Reasoned
    }

    // The item is a further reasoning while one waits, or the flush ahead of it clashes.
    predicate Overwrites(item: Json) {
      if BringsReasoning(item) then waits
      else
        && item.Object? && (ItemType(item) == "message" || ItemType(item) == "function_call_output")
        && Clashes()
    }

    // The end of the input loses what waits, unless calls take it to a turn of their own.
    predicate Strands() {
      Clashes() || (waits && !calls)
    }
  }

  function After(items: seq<Json>): Outlook
    decreases |items|
  {
    if items == [] then Outlook(false, false, Closed)
    else After(items[..|items| - 1]).Next(items[|items| - 1])
  }

  // How many of the items lose a reasoning.
  function LossesIn(items: seq<Json>): nat
    decreases |items|
  {
    if items == [] then 0
    else
      var n := |items| - 1;
      LossesIn(items[..n]) + if After(items[..n]).Overwrites(items[n]) then 1 else 0
  }

  // Every reasoning finds a turn of its own.
  predicate AllCarried(items: seq<Json>) {
    (forall n :: 0 <= n < |items| ==> !After(items[..n]).Overwrites(items[n])) && !After(items).Strands()
  }

  lemma {:induction false} NoLossesIff(items: seq<Json>)
    ensures LossesIn(items) == 0 <==> forall n :: 0 <= n < |items| ==> !After(items[..n]).Overwrites(items[n])
    decreases |items|
  {
    hide After, Outlook.Overwrites;
    if items != [] {
      var init := items[..|items| - 1];
      NoLossesIff(init);
      assert forall n :: 0 <= n < |init| ==> init[..n] == items[..n] && init[n] == items[n];
    }
  }

  function TurnOf(messages: seq<Json>, minMergeIndex: nat): Turn {
    if !CanMerge(messages, minMergeIndex) then Closed
    else if ReasoningOf(messages[|messages| - 1]) != "" then Reasoned
    else Bare
  }

  // The outlook of a conversation.
  function View(c: Conversation, minMergeIndex: nat): Outlook {
    Outlook(c.reasoning != "", c.pending != [], TurnOf(c.messages, minMergeIndex))
  }

  lemma MessageTurn(messages: seq<Json>, minMergeIndex: nat, msg: Json)
    requires |messages| >= minMergeIndex
    ensures Role(msg) != "assistant" || HasField(msg, "tool_calls") ==> TurnOf(messages + [msg], minMergeIndex) == Closed
    ensures Role(msg) == "assistant" && !HasField(msg, "tool_calls") ==>
              TurnOf(messages + [msg], minMergeIndex) == if ReasoningOf(msg) != "" then Reasoned else Bare
  {
  }

  lemma MergedHasCalls(msg: Json, calls: seq<Json>, reasoning: string)
    ensures HasField(WithReasoning(SetField(msg, "tool_calls", Array(calls)), reasoning), "tool_calls")
  {
    hide SetField;
    var last := SetField(msg, "tool_calls", Array(calls));
    SetFieldSets(msg, "tool_calls", Array(calls), "tool_calls");
    SetFieldSets(last, "reasoning_content", String(reasoning), "tool_calls");
  }

  lemma FlushView(c: Conversation, minMergeIndex: nat)
    requires |c.messages| >= minMergeIndex
    ensures |Flushed(c, minMergeIndex).messages| >= minMergeIndex
    ensures View(Flushed(c, minMergeIndex), minMergeIndex) == View(c, minMergeIndex).Flush()
  {
    assert CanMerge(c.messages, minMergeIndex) ==> c.messages != [];
    hide SetField, WithReasoning, CanMerge, Role, HasField, CallsMessage, ReasoningOf;
    if c.pending != [] {
      if CanMerge(c.messages, minMergeIndex) {
        var n := |c.messages| - 1;
        MergedHasCalls(c.messages[n], c.pending, c.reasoning);
        LastTakesNoCalls(Flushed(c, minMergeIndex).messages, minMergeIndex);
      } else {
        NewTurnHasCalls(c.pending, c.reasoning);
        LastTakesNoCalls(Flushed(c, minMergeIndex).messages, minMergeIndex);
      }
    }
  }

  lemma LastTakesNoCalls(messages: seq<Json>, minMergeIndex: nat)
    requires messages != [] && HasField(messages[|messages| - 1], "tool_calls")
    ensures TurnOf(messages, minMergeIndex) == Closed
  {
  }

  lemma NewTurnHasCalls(calls: seq<Json>, reasoning: string)
    ensures HasField(WithReasoning(CallsMessage(calls), reasoning), "tool_calls")
  {
    var msg := CallsMessage(calls);
    TwoFields(Member("role", String("assistant")), Member("tool_calls", Array(calls)), "tool_calls");
    SetFieldSets(msg, "reasoning_content", String(reasoning), "tool_calls");
    hide SetField;
  }

  lemma MessageView(c: Conversation, minMergeIndex: nat, item: Json)
    requires |c.messages| >= minMergeIndex && item.Object? && ItemType(item) == "message" && c.pending == []
    ensures View(AddMessage(c, item), minMergeIndex) == View(c, minMergeIndex).Next(item)
  {
    hide ItemContent, ItemRole, ItemType, WithReasoning, Role, HasField, ReasoningOf, TurnOf, Message;
    var role, content := ItemRole(item), ItemContent(item);
    if role != "system" {
      var msg := Message(role, content);
      PlainMessage(role, content);
      WithReasoningKeeps(msg, c.reasoning);
      MessageTurn(c.messages, minMergeIndex, msg);
      MessageTurn(c.messages, minMergeIndex, WithReasoning(msg, c.reasoning));
    }
  }

  lemma PlainMessage(role: string, content: Json)
    ensures Role(Message(role, content)) == role && !HasField(Message(role, content), "tool_calls")
    ensures ReasoningOf(Message(role, content)) == ""
  {
    var a, b := Member("role", String(role)), Member("content", content);
    TwoFields(a, b, "role");
    TwoFields(a, b, "tool_calls");
    TwoFields(a, b, "reasoning_content");
  }

  lemma WithReasoningKeeps(msg: Json, reasoning: string)
    ensures var r := WithReasoning(msg, reasoning);
            && Role(r) == Role(msg) && HasField(r, "tool_calls") == HasField(msg, "tool_calls")
            && ReasoningOf(r) == if reasoning != "" then reasoning else ReasoningOf(msg)
  {
    hide SetField;
    SetFieldSets(msg, "reasoning_content", String(reasoning), "role");
    SetFieldSets(msg, "reasoning_content", String(reasoning), "tool_calls");
    SetFieldSets(msg, "reasoning_content", String(reasoning), "reasoning_content");
  }

  // The scan of the items follows the conversation.
  lemma ItemView(env: Env, minMergeIndex: nat, c: Conversation, i: nat, item: Json)
    requires |c.messages| >= minMergeIndex
    ensures var d := AddItem(env, minMergeIndex, c, i, item);
            && |d.messages| >= minMergeIndex
            && View(d, minMergeIndex) == View(c, minMergeIndex).Next(item)
    ensures Loses(minMergeIndex, c, item) <==> View(c, minMergeIndex).Overwrites(item)
  {
    hide ItemType, CallOf, ItemContent, ItemRole, OutputOf, Flushed, SummaryTexts, ReasoningOf, Role, HasField;
    FlushView(c, minMergeIndex);
    var f := Flushed(c, minMergeIndex);
    if item.Object? {
      match ItemType(item)
      case "message" =>
        NothingPends(c, minMergeIndex);
        MessageView(f, minMergeIndex, item);
      case "reasoning" =>
      case "function_call" =>
      case "function_call_output" =>
        ToolMessageRole(GetString(item, "call_id"), GetString(item, "output"));
        OutputTurn(f.messages, minMergeIndex, item);
      case _ =>
    }
  }

  lemma NothingPends(c: Conversation, minMergeIndex: nat)
    ensures Flushed(c, minMergeIndex).pending == []
  {
  }

  lemma OutputTurn(messages: seq<Json>, minMergeIndex: nat, item: Json)
    requires |messages| >= minMergeIndex
    ensures TurnOf(messages + [OutputOf(item)], minMergeIndex) == Closed
  {
    ToolMessageRole(GetString(item, "call_id"), GetString(item, "output"));
  }

  lemma {:induction false} ItemsView(env: Env, instructions: string, previous: seq<Json>, items: seq<Json>)
    ensures var d := AddItems(env, |previous|, Start(instructions, previous), items);
            |d.messages| >= |previous| && View(d, |previous|) == After(items)
    decreases |items|
  {
    hide AddItem;
    if items != [] {
      var n := |items| - 1;
      ItemsView(env, instructions, previous, items[..n]);
      ItemView(env, |previous|, AddItems(env, |previous|, Start(instructions, previous), items[..n]), n, items[n]);
    }
  }

  lemma {:induction false} ItemsKeepThoughts(env: Env, instructions: string, previous: seq<Json>, items: seq<Json>)
    ensures var c := Start(instructions, previous);
            var d := AddItems(env, |previous|, c, items);
            && |Ledger(d)| + LossesIn(items) == |Ledger(c)| + |ItemsThoughts(items)|
            && (LossesIn(items) == 0 ==> Ledger(d) == Ledger(c) + ItemsThoughts(items))
    decreases |items|
  {
    hide AddItem, ItemThought, Ledger, Loses, After, View, Outlook.Overwrites, Outlook.Next, Start;
    var c := Start(instructions, previous);
    assert Ledger(c) + [] == Ledger(c);
    if items != [] {
      var n := |items| - 1;
      var d := AddItems(env, |previous|, c, items[..n]);
      ItemsKeepThoughts(env, instructions, previous, items[..n]);
      ItemKeepsThoughtsIff(env, |previous|, d, n, items[n]);
      ItemsView(env, instructions, previous, items[..n]);
      ItemView(env, |previous|, d, n, items[n]);
      assert Ledger(c) + ItemsThoughts(items[..n]) + ItemThought(items[n])
          == Ledger(c) + (ItemsThoughts(items[..n]) + ItemThought(items[n]));
    }
  }

  // The last flush keeps what waits only with calls to go with.
  predicate TrailingLoses(d: Conversation, minMergeIndex: nat) {
    FlushLoses(d, minMergeIndex) || (d.pending == [] && d.reasoning != "")
  }

  lemma LastFlush(d: Conversation, minMergeIndex: nat)
    ensures var after := Thoughts(Flushed(d, minMergeIndex).messages);
            && |after| == |Ledger(d)| - (if TrailingLoses(d, minMergeIndex) then 1 else 0)
            && (!TrailingLoses(d, minMergeIndex) ==> after == Ledger(d))
  {
    FlushKeepsThoughts(d, minMergeIndex);
    if d.pending != [] {
      CallsTakeReasoning(d, minMergeIndex);
    }
    hide Flushed, Thoughts, FlushLoses;
    var f := Flushed(d, minMergeIndex);
    assert Thoughts(f.messages) + [] == Thoughts(f.messages);
    assert d.pending == [] ==> f == d by {
      NothingToFlush(d, minMergeIndex);
    }
  }

  lemma NothingToFlush(d: Conversation, minMergeIndex: nat)
    ensures d.pending == [] ==> Flushed(d, minMergeIndex) == d
  {
  }

  lemma {:induction false} NonSystemThoughts(messages: seq<Json>)
    ensures Thoughts(NonSystem(messages)) == Thoughts(messages)
    decreases |messages|
  {
    hide ReasoningOf, Role;
    if messages != [] {
      var init, last := messages[..|messages| - 1], messages[|messages| - 1];
      NonSystemThoughts(init);
      if Role(last) == "system" {
        assert NonSystem(init) + [] == NonSystem(init) && Thoughts(init) + [] == Thoughts(init);
      } else {
        ThoughtsSnoc(NonSystem(init), last);
      }
    }
  }

  // For every item list, read off the items alone: how many reasonings the turns of the
  // result do not carry; and they carry those of the previous messages and then those of
  // the items, one each and in order, exactly when none is overwritten or stranded.
  lemma ReasoningIsKeptIff(env: Env, items: seq<Json>, instructions: string, previous: seq<Json>)
    ensures var result := Thoughts(Convert(env, Array(items), instructions, previous));
            && |result| + LossesIn(items) + (if After(items).Strands() then 1 else 0)
                 == |Thoughts(previous)| + |ItemsThoughts(items)|
            && (result == Thoughts(previous) + ItemsThoughts(items) <==> AllCarried(items))
  {
    hide Thoughts, Flushed, Finish, AddItems, ItemsThoughts, TrailingLoses, NonSystem, LossesIn, After;
    var c := Start(instructions, previous);
    var d := AddItems(env, |previous|, c, items);
    assert Ledger(c) == Thoughts(previous) by {
      assert Thoughts(previous) + [] == Thoughts(previous);
    }
    ItemsKeepThoughts(env, instructions, previous, items);
    ItemsView(env, instructions, previous, items);
    NoLossesIff(items);
    StrandsIff(d, |previous|);
    LastFlush(d, |previous|);
    FinishKeepsNonSystem(Flushed(d, |previous|));
    NonSystemThoughts(Flushed(d, |previous|).messages);
    NonSystemThoughts(Finish(Flushed(d, |previous|)));
  }

  lemma StrandsIff(d: Conversation, minMergeIndex: nat)
    ensures TrailingLoses(d, minMergeIndex) <==> View(d, minMergeIndex).Strands()
  {
    hide CanMerge, ReasoningOf;
  }

  function ReasoningItem(text: string): Json {
    Object([Member("type", String("reasoning")), Member("summary", Array([Object([Member("text", String(text))])]))])
  }

  function AssistantItem(text: string): Json {
    Object([Member("role", String("assistant")), Member("content", String(text))])
  }

  // Two reasoning items in a row before an assistant message: the turn carries the second,
  // the first is lost.
  lemma FirstReasoningIsLost(env: Env, a: string, b: string, text: string)
    requires a != "" && b != ""
    ensures var items := [ReasoningItem(a), ReasoningItem(b), AssistantItem(text)];
            && ItemsThoughts(items) == [a, b] && !AllCarried(items)
            && Thoughts(Convert(env, Array(items), "", [])) == [b]
  {
    var items := [ReasoningItem(a), ReasoningItem(b), AssistantItem(text)];
    FirstIsOverwritten(a, b, text);
    SecondIsCarried(env, a, b, text);
    hide ReasoningItem, AssistantItem, Thoughts, Finish, Flushed, Ledger, After, AllCarried, TrailingLoses, AddItems;
    var e := AddItems(env, 0, Start("", []), items);
    ItemsView(env, "", [], items);
    StrandsIff(e, 0);
    LastFlush(e, 0);
    FinishKeepsNonSystem(Flushed(e, 0));
    NonSystemThoughts(Flushed(e, 0).messages);
    NonSystemThoughts(Finish(Flushed(e, 0)));
  }

  lemma FirstIsOverwritten(a: string, b: string, text: string)
    requires a != "" && b != ""
    ensures var items := [ReasoningItem(a), ReasoningItem(b), AssistantItem(text)];
            && ItemsThoughts(items) == [a, b] && !AllCarried(items)
            && After(items) == Outlook(false, false, Reasoned)
  {
    var x, y, z := ReasoningItem(a), ReasoningItem(b), AssistantItem(text);
    ReasoningItemBrings(a);
    ReasoningItemBrings(b);
    AssistantItemIsMessage(text);
    hide ReasoningItem, AssistantItem, BringsReasoning, ItemThought, ItemType, ItemRole;
    var items := [x, y, z];
    assert items[..2] == [x, y] && [x, y][..1] == [x] && items[..1] == [x] && [x][..0] == [];
    assert After([x]) == Outlook(true, false, Closed);
    assert After([x, y]) == Outlook(true, false, Closed);
    assert After(items[..1]).Overwrites(items[1]);
    assert ItemsThoughts([x]) == [a];
    assert ItemsThoughts([x, y]) == [a, b];
  }

  lemma SecondIsCarried(env: Env, a: string, b: string, text: string)
    requires a != "" && b != ""
    ensures Ledger(AddItems(env, 0, Start("", []), [ReasoningItem(a), ReasoningItem(b), AssistantItem(text)])) == [b]
  {
    var x, y, z := ReasoningItem(a), ReasoningItem(b), AssistantItem(text);
    AssistantItemIsMessage(text);
    var c := Start("", []);
    ReasoningItemAdds(env, c, 0, a);
    ReasoningItemAdds(env, c.(reasoning := a), 1, b);
    hide ReasoningItem, AssistantItem, AddItem;
    assert [x, y, z][..2] == [x, y] && [x, y][..1] == [x] && [x][..0] == [];
    assert AddItems(env, 0, c, [x]) == c.(reasoning := a);
    assert AddItems(env, 0, c, [x, y]) == c.(reasoning := b);
    ItemKeepsThoughtsIff(env, 0, c.(reasoning := b), 2, z);
  }

  lemma ReasoningItemAdds(env: Env, c: Conversation, i: nat, text: string)
    requires text != ""
    ensures AddItem(env, 0, c, i, ReasoningItem(text)) == c.(reasoning := text)
  {
    ReasoningItemBrings(text);
    hide ReasoningItem, SummaryTexts, ItemType;
  }

  lemma ReasoningItemBrings(text: string)
    ensures var item := ReasoningItem(text);
            && item.Object? && ItemType(item) == "reasoning" && BringsReasoning(item)
            && ItemThought(item) == OneUnlessEmpty(text)
  {
    var part := Object([Member("text", String(text))]);
    var kind, summary := Member("type", String("reasoning")), Member("summary", Array([part]));
    TwoFields(kind, summary, "type");
    TwoFields(kind, summary, "summary");
    assert [part][..0] == [] && GetString(part, "text") == text;
    assert SummaryTexts([part]) == OneUnlessEmpty(text);
  }

  lemma AssistantItemIsMessage(text: string)
    ensures var item := AssistantItem(text);
            && item.Object? && ItemType(item) == "message" && ItemRole(item) == "assistant"
            && !BringsReasoning(item) && ItemThought(item) == []
  {
    var role, content := Member("role", String("assistant")), Member("content", String(text));
    TwoFields(role, content, "type");
    TwoFields(role, content, "role");
  }

  // ---------------------------------------------------------------------------
  // What an item is read as

  // A call goes by its call id, or else its item id, or else a new one; it has the name of
  // its item, and its arguments are the JSON value their text stands for, or the text.
  lemma CallCarriesItsItem(env: Env, i: nat, item: Json)
    ensures var call, callID, itemID := CallOf(env, i, item), GetString(item, "call_id"), GetString(item, "id");
            && GetString(call, "id") == (if callID != "" then callID else if itemID != "" then itemID else env.callID(i))
            && GetString(call, "type") == "function"
            && GetField(call, "function").Some?
            && var f := GetField(call, "function").value;
            && GetString(f, "name") == GetString(item, "name")
            && var text := GetString(item, "arguments");
            && GetField(f, "arguments").Some?
            && IsReadAs(env, if text != "" then text else "{}", GetField(f, "arguments").value)
  {
    var call := CallOf(env, i, item);
    ThreeFields(call.members, "id");
    ThreeFields(call.members, "type");
    ThreeFields(call.members, "function");
    var f := GetField(call, "function").value;
    TwoFields(f.members[0], f.members[1], "name");
    TwoFields(f.members[0], f.members[1], "arguments");
    assert f.members == [f.members[0], f.members[1]];
  }

  // The text of an object or an array that parses is its value; any other text is itself.
  predicate IsReadAs(env: Env, text: string, v: Json) {
    var t := Text.TrimSpace(text);
    if "{" <= t || "[" <= t then v == (match env.parse(t) case Some(x) => x case None => String(text))
    else v == String(text)
  }

  lemma ThreeFields(members: seq<Member>, key: string)
    requires |members| == 3
    ensures FirstField(members, key) ==
              if key == members[0].key then Some(members[0].value)
              else if key == members[1].key then Some(members[1].value)
              else if key == members[2].key then Some(members[2].value)
              else None
  {
    assert members[1..] == [members[1], members[2]];
    TwoFields(members[1], members[2], key);
  }

  // A call and a later output with its call id meet in the timeline under that id, the
  // output as the text of a tool message.
  lemma OutputMeetsItsCall(env: Env, i: nat, call: Json, j: nat, output: Json)
    requires call.Object? && ItemType(call) == "function_call"
    requires output.Object? && ItemType(output) == "function_call_output"
    requires GetString(call, "call_id") == GetString(output, "call_id") != ""
    ensures ItemLine(env, i, call) == [Called(CallOf(env, i, call))]
    ensures ItemLine(env, j, output) ==
              [Said("tool", String(GetString(output, "output")), GetString(CallOf(env, i, call), "id"))]
  {
    hide CallOf, ItemType;
    CallCarriesItsItem(env, i, call);
  }

  function TextPart(kind: string, text: string): Json {
    Object([Member("type", String(kind)), Member("text", String(text))])
  }

  function ImagePart(url: string): Json {
    Object([Member("type", String("input_image")), Member("image_url", String(url))])
  }

  predicate IsTextKind(kind: string) {
    kind == "input_text" || kind == "text" || kind == "output_text"
  }

  // A content part as a client writes it.
  datatype Part = Plain(text: string) | Typed(kind: string, text: string) | Image(url: string)
  {
    predicate Valid() {
      Typed? ==> IsTextKind(kind)
    }

    function Json(): Json
    {
      match this
      case Plain(text) => String(text)
      case Typed(kind, text) => TextPart(kind, text)
      case Image(url) => ImagePart(url)
    }
  }

  function Written(parts: seq<Part>): seq<Json> {
    seq(|parts|, i requires 0 <= i < |parts| => parts[i].Json())
  }

  lemma PartIsRead(part: Part)
    requires part.Valid()
    ensures IsImage(part.Json()) <==> part.Image?
    ensures !part.Image? ==>
              && PartText(part.Json()) == [part.text]
              && Converted(part.Json()) == [TextPart("text", part.text)]
    ensures part.Image? ==>
              && PartText(part.Json()) == []
              && Converted(part.Json()) ==
                   [Object([Member("type", String("input_image")), Member("image_url", String(part.url)),
                            Member("detail", String("auto"))])]
  {
    match part
    case Plain(text) =>
    case Typed(kind, text) =>
      TwoFields(Member("type", String(kind)), Member("text", String(text)), "type");
      TwoFields(Member("type", String(kind)), Member("text", String(text)), "text");
    case Image(url) =>
      var a, b := Member("type", String("input_image")), Member("image_url", String(url));
      TwoFields(a, b, "type");
      TwoFields(a, b, "image_url");
      TwoFields(a, b, "detail");
  }

  lemma {:induction false} PartsAreRead(parts: seq<Part>)
    requires forall i :: 0 <= i < |parts| ==> parts[i].Valid()
    ensures (forall i :: 0 <= i < |parts| ==> !parts[i].Image?) ==>
              PartTexts(Written(parts)) == seq(|parts|, i requires 0 <= i < |parts| => if parts[i].Image? then "" else parts[i].text)
    ensures |ConvertedParts(Written(parts))| == |parts|
    ensures forall i :: 0 <= i < |parts| ==> [ConvertedParts(Written(parts))[i]] == Converted(parts[i].Json())
    decreases |parts|
  {
    hide PartText, Converted, Part.Json, Part.Valid;
    if parts != [] {
      var n := |parts| - 1;
      PartsAreRead(parts[..n]);
      PartIsRead(parts[n]);
      assert Written(parts)[..n] == Written(parts[..n]) && Written(parts)[n] == parts[n].Json();
    }
  }

  // Text parts, typed or bare, become their texts joined by newlines. With an image among
  // them every part is kept, in order, as a text part or an image part.
  lemma ContentIsRead(parts: seq<Part>)
    requires forall i :: 0 <= i < |parts| ==> parts[i].Valid()
    ensures (forall i :: 0 <= i < |parts| ==> !parts[i].Image?) ==>
              Content(Array(Written(parts))) ==
                String(Text.Join(seq(|parts|, i requires 0 <= i < |parts| => if parts[i].Image? then "" else parts[i].text), "\n"))
    ensures (exists i :: 0 <= i < |parts| && parts[i].Image?) ==>
              && Content(Array(Written(parts))).Array?
              && var items := Content(Array(Written(parts))).items;
              && |items| == |parts|
              && forall i :: 0 <= i < |parts| ==>
                   if parts[i].Image? then
                     items[i] == Object([Member("type", String("input_image")), Member("image_url", String(parts[i].url)),
                                         Member("detail", String("auto"))])
                   else items[i] == TextPart("text", parts[i].text)
  {
    PartsAreRead(parts);
    forall i | 0 <= i < |parts|
      ensures IsImage(Written(parts)[i]) <==> parts[i].Image?
    {
      PartIsRead(parts[i]);
    }
    hide Converted, IsImage, PartText, Part.Json;
    forall i | 0 <= i < |parts|
      ensures var c := ConvertedParts(Written(parts))[i];
              if parts[i].Image? then
                c == Object([Member("type", String("input_image")), Member("image_url", String(parts[i].url)),
                             Member("detail", String("auto"))])
              else c == TextPart("text", parts[i].text)
    {
      PartIsRead(parts[i]);
    }
  }

  // A reasoning item brings its summary texts, joined by newlines.
  lemma {:induction false} SummaryIsRead(texts: seq<string>)
    requires forall i :: 0 <= i < |texts| ==> texts[i] != ""
    ensures SummaryTexts(seq(|texts|, i requires 0 <= i < |texts| => Object([Member("text", String(texts[i]))]))) == texts
    decreases |texts|
  {
    if texts != [] {
      var n := |texts| - 1;
      var parts := seq(|texts|, i requires 0 <= i < |texts| => Object([Member("text", String(texts[i]))]));
      assert parts[..n] == seq(n, i requires 0 <= i < n => Object([Member("text", String(texts[..n][i]))]));
      SummaryIsRead(texts[..n]);
      assert parts[n].members[0] == Member("text", String(texts[n]));
      assert texts == texts[..n] + [texts[n]];
    }
  }

  // A message item speaks in its role, a developer as the system and nobody as the user.
  lemma MessageItemSpeaks(env: Env, i: nat, role: string, text: string)
    ensures var item := Object([Member("role", String(role)), Member("content", String(text))]);
            && ItemLine(env, i, item) ==
                 (if role == "system" || role == "developer" then []
                  else [Said(if role == "" then "user" else role, String(text), "")])
            && ItemSystem(item) == if role == "system" || role == "developer" then [text] else []
  {
    var a, b := Member("role", String(role)), Member("content", String(text));
    TwoFields(a, b, "type");
    TwoFields(a, b, "role");
    TwoFields(a, b, "content");
  }

  // Waiting calls join the last message exactly when that is an assistant turn of this input
  // that takes calls, and it stays as it was but for them and the reasoning; otherwise a
  // turn of their own comes after it. Everything before is untouched.
  lemma FlushMergesIff(c: Conversation, minMergeIndex: nat, key: string)
    requires c.pending != [] && key != "tool_calls" && key != "reasoning_content"
    ensures var f := Flushed(c, minMergeIndex);
            var n := |c.messages|;
            if TurnOf(c.messages, minMergeIndex) != Closed then
              && |f.messages| == n && f.messages[..n - 1] == c.messages[..n - 1]
              && GetField(f.messages[n - 1], key) == GetField(c.messages[n - 1], key)
            else
              |f.messages| == n + 1 && f.messages[..n] == c.messages
  {
    hide SetField;
    if CanMerge(c.messages, minMergeIndex) {
      var last := c.messages[|c.messages| - 1];
      SetFieldSets(last, "tool_calls", Array(c.pending), key);
      SetFieldSets(SetField(last, "tool_calls", Array(c.pending)), "reasoning_content", String(c.reasoning), key);
    }
  }
}
