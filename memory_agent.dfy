/** 09-memory-agent.js: the weather tool's table, the notes tool over its
    shared in-memory store, the router of the agent graph and the closing
    message statistics. */
module MemoryAgent {
  import opened Wrappers
  import opened Text
  import opened Messages

  // ---------------------------------------------------------------------
  // get_weather

  datatype WeatherData = WeatherData(temp: int, condition: string, humidity: int, wind: string)

  const WeatherTable: map<string, WeatherData> := map[
    "北京" := WeatherData(8, "晴朗", 35, "北风3级"),
    "上海" := WeatherData(15, "多云", 65, "东风2级"),
    "深圳" := WeatherData(25, "阴天", 80, "南风2级"),
    "广州" := WeatherData(23, "小雨", 85, "东南风3级"),
    "成都" := WeatherData(12, "阴天", 70, "微风")]

  const DefaultWeather := WeatherData(20, "晴", 50, "微风")

  /** `weatherData[city] || { … }`: the table's entry, else the fallback. */
  function LookupWeather(city: string): (d: WeatherData)
    ensures city in WeatherTable ==> d == WeatherTable[city]
    ensures city !in WeatherTable ==> d == DefaultWeather
  {
    if city in WeatherTable then WeatherTable[city] else DefaultWeather
  }

  /** The text the weather tool returns: the city, then the condition,
      temperature, humidity and wind of the entry the lookup gives it. */
  function WeatherReport(city: string): (r: string)
    ensures var d := LookupWeather(city);
      r == city + "天气：" + d.condition + "，温度" + IntToString(d.temp) + "°C，湿度"
        + IntToString(d.humidity) + "%，" + d.wind
  {
    var data := LookupWeather(city);
    city + "天气：" + data.condition + "，温度" + IntToString(data.temp) + "°C，湿度"
      + IntToString(data.humidity) + "%，" + data.wind
  }

  /** Every city, listed or not, gets a report, and the unlisted ones all get
      the same fallback figures. */
  lemma UnlistedCitiesShareFallback(a: string, b: string)
    requires a !in WeatherTable && b !in WeatherTable
    ensures LookupWeather(a) == LookupWeather(b) == DefaultWeather
    ensures WeatherReport(a)[|a|..] == WeatherReport(b)[|b|..]
  {
  }

  // ---------------------------------------------------------------------
  // notes

  const SaveError := "错误：保存备忘录需要提供 key 和 content"
  const GetError := "错误：读取备忘录需要提供 key"
  const EmptyList := "暂无备忘录"
  const ListHeader := "当前备忘录列表：\n"
  const UnknownAction := "未知操作"

  /** A tool argument that is missing or the empty string, as `!key` tests. */
  predicate Blank(arg: Option<string>) {
    arg.None? || arg.value == ""
  }

  function Saved(key: string): string {
    "备忘录「" + key + "」已保存"
  }

  function Missing(key: string): string {
    "备忘录「" + key + "」不存在"
  }

  /** The `get` reply: the saved text when it is truthy, else the miss message. */
  function GetReply(notes: map<string, string>, key: Option<string>): (r: string)
    ensures Blank(key) ==> r == GetError
    ensures !Blank(key) && key.value in notes && notes[key.value] != "" ==> r == notes[key.value]
    ensures !Blank(key) && (key.value !in notes || notes[key.value] == "") ==> r == Missing(key.value)
  {
    if Blank(key) then GetError
    else if key.value in notes && notes[key.value] != "" then notes[key.value]
    else Missing(key.value)
  }

  /** One `- k: v` line per key, in key order. */
  function ListLines(notes: map<string, string>, order: seq<string>): (lines: seq<string>)
    requires forall i :: 0 <= i < |order| ==> order[i] in notes
    ensures |lines| == |order|
    ensures forall i :: 0 <= i < |order| ==> lines[i] == "- " + order[i] + ": " + notes[order[i]]
  {
    seq(|order|, i requires 0 <= i < |order| => "- " + order[i] + ": " + notes[order[i]])
  }

  /** The `list` reply. */
  function ListReply(notes: map<string, string>, order: seq<string>): (r: string)
    requires forall i :: 0 <= i < |order| ==> order[i] in notes
  {
    if |order| == 0 then EmptyList else ListHeader + Join(ListLines(notes, order), "\n")
  }

  /** The store shared by every call of the notes tool. `order` is the order in
      which `Object.keys` lists the keys: first insertion. */
  class NotesStore {
    var notes: map<string, string>
    var order: seq<string>

    /** Every key listed once, only saved keys listed, and no saved text empty. */
    ghost predicate Valid()
      reads this
    {
      && (forall k :: k in notes <==> k in order)
      && (forall i, j :: 0 <= i < j < |order| ==> order[i] != order[j])
      && (forall k :: k in notes ==> notes[k] != "")
    }

    /** `const notesStore = {}` */
    constructor()
      ensures Valid() && notes == map[] && order == []
    {
      notes := map[];
      order := [];
    }

    /** notesTool.func */
    method Notes(action: string, key: Option<string>, content: Option<string>) returns (reply: string)
      requires Valid()
      modifies this
      ensures Valid()
      ensures action == "save" && (Blank(key) || Blank(content)) ==>
        reply == SaveError && notes == old(notes) && order == old(order)
      ensures action == "save" && !Blank(key) && !Blank(content) ==>
        && reply == Saved(key.value)
        && notes == old(notes)[key.value := content.value]
        && order == (if key.value in old(notes) then old(order) else old(order) + [key.value])
      ensures action == "get" ==> reply == GetReply(old(notes), key)
      ensures action == "list" ==> reply == ListReply(old(notes), old(order))
      ensures action !in {"save", "get", "list"} ==> reply == UnknownAction
      ensures action != "save" ==> notes == old(notes) && order == old(order)
    {
      if action == "save" {
        if Blank(key) || Blank(content) {
          return SaveError;
        }
        var k := key.value;
        if k !in notes {
          order := order + [k];
        }
        notes := notes[k := content.value];
        reply := Saved(k);
      } else if action == "get" {
        reply := GetReply(notes, key);
      } else if action == "list" {
        reply := ListReply(notes, order);
      } else {
        reply := UnknownAction;
      }
    }
  }

  /** A store that only ever went through `save` holds no empty text, so
      `get` returns what was last saved under the key, and other keys read as
      before. */
  lemma GetAfterSave(notes: map<string, string>, k: string, c: string, other: Option<string>)
    requires forall key :: key in notes ==> notes[key] != ""
    requires k != "" && c != ""
    ensures GetReply(notes[k := c], Some(k)) == c
    ensures other != Some(k) ==> GetReply(notes[k := c], other) == GetReply(notes, other)
  {
  }

  /** A key that was never saved reads as missing. */
  lemma GetUnsaved(notes: map<string, string>, k: string)
    requires k != "" && k !in notes
    ensures GetReply(notes, Some(k)) == Missing(k)
  {
  }

  /** The list is "暂无备忘录" exactly when nothing is saved, and otherwise
      holds a `- k: v` line for every saved key. */
  lemma ListShowsEverySavedNote(notes: map<string, string>, order: seq<string>)
    requires forall k :: k in notes <==> k in order
    ensures ListReply(notes, order) == EmptyList <==> notes == map[]
    ensures forall k :: k in notes ==> Contains(ListReply(notes, order), "- " + k + ": " + notes[k])
  {
    assert order != [] ==> order[0] in notes;
    if notes != map[] {
      var k0 :| k0 in notes;
      assert order != [];
      assert ListReply(notes, order)[..|ListHeader|] == ListHeader;
    }
    forall k | k in notes
      ensures Contains(ListReply(notes, order), "- " + k + ": " + notes[k])
    {
      var i :| 0 <= i < |order| && order[i] == k;
      var lines := ListLines(notes, order);
      JoinOccurs(lines, "\n", i);
      var joined := Join(lines, "\n");
      var p :| OccursAt(joined, lines[i], p);
      var r := ListReply(notes, order);
      assert r == ListHeader + joined;
      assert r[|ListHeader| + p..|ListHeader| + p + |lines[i]|] == joined[p..p + |lines[i]|];
      assert OccursAt(r, lines[i], |ListHeader| + p);
      ContainsIff(r, lines[i]);
    }
  }

  // ---------------------------------------------------------------------
  // The agent graph's router is Messages.ShouldCallTools; its `messages`
  // field uses the append reducer.

  // ---------------------------------------------------------------------
  // Message statistics

  /** Every message is of exactly one kind, so the four counts add up to the total. */
  lemma {:induction false} CountsPartition(msgs: seq<Message>)
    ensures CountKind(msgs, HumanMessage) + CountKind(msgs, AIMessage)
      + CountKind(msgs, ToolMessage) + CountKind(msgs, SystemMessage) == |msgs|
  {
    if msgs != [] {
      CountsPartition(msgs[..|msgs| - 1]);
    }
  }

  /** The statistics loop: each message bumps at most one counter, so the
      three counts add up to the number of messages that are not system
      messages, which never exceeds the total. */
  method CountMessageTypes(msgs: seq<Message>) returns (humanCount: nat, aiCount: nat, toolCount: nat)
    ensures humanCount == CountKind(msgs, HumanMessage)
    ensures aiCount == CountKind(msgs, AIMessage)
    ensures toolCount == CountKind(msgs, ToolMessage)
    ensures humanCount + aiCount + toolCount == |msgs| - CountKind(msgs, SystemMessage)
  {
    humanCount, aiCount, toolCount := 0, 0, 0;
    var i := 0;
    while i < |msgs|
      invariant 0 <= i <= |msgs|
      invariant humanCount == CountKind(msgs[..i], HumanMessage)
      invariant aiCount == CountKind(msgs[..i], AIMessage)
      invariant toolCount == CountKind(msgs[..i], ToolMessage)
    {
      var msg := msgs[i];
      assert msgs[..i + 1][..i] == msgs[..i];
      if KindOf(msg) == HumanMessage {
        humanCount := humanCount + 1;
      } else if KindOf(msg) == AIMessage {
        aiCount := aiCount + 1;
      } else if KindOf(msg) == ToolMessage {
        toolCount := toolCount + 1;
      }
      i := i + 1;
    }
    assert msgs[..i] == msgs;
    CountsPartition(msgs);
  }
}
