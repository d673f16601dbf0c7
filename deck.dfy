/** Word entries, the bundled languages, the payloads a deck can be replaced
    with, and the lookup of the card under the cursor. */
module Deck {
  import opened Js

  /** One vocabulary card. The two example fields may be absent. */
  datatype WordEntry = WordEntry(word: string, meaning: string, example: Option<string>, exampleCn: Option<string>)

  /** The languages the app offers; each has its own bundled deck file. */
  datatype Lang = Ko | Th | Ja
  {
    function Key(): string
    {
      match this
      case Ko => "ko"
      case Th => "th"
      case Ja => "ja"
    }
  }

  /** The bundled deck file of a language, `words_<key>.json`. */
  function FileName(lang: Lang): string
  {
    "words_" + lang.Key() + ".json"
  }

  /** The two cards the session starts with, before any deck has loaded. */
  function StarterDeck(): seq<WordEntry>
  {
    [ WordEntry("안녕하세요", "你好", Some("안녕하세요, 만나서 반갑습니다."), Some("你好，很高兴见到你。")),
      WordEntry("감사합니다", "谢谢", Some("도와주셔서 감사합니다."), Some("谢谢你的帮助。")) ]
  }

  /** The single card that replaces the deck when the bundled file of `lang`
      cannot be fetched or parsed. */
  function LoadFailedEntry(lang: Lang): WordEntry
  {
    WordEntry("等待数据", "未找到 " + FileName(lang), Some("请上传文件或确保JSON在同一目录"), Some("点击右上角上传按钮手动导入"))
  }

  /** The card shown when there is no card at the cursor. */
  function NoData(): WordEntry
  {
    WordEntry("无数据", "请导入", None, None)
  }

  /** A parsed JSON document, as far as the deck logic inspects it: an array
      (of word entries) or anything else. */
  datatype Json = JArray(items: seq<WordEntry>) | JOther

  /** How fetching the bundled deck file ended: a network failure, an HTTP
      status that is not ok or a body that is not JSON all end in `FetchFailed`. */
  datatype Fetched = FetchFailed | Fetched(data: Json)

  /** What a file upload delivers: no file chosen, text that is not JSON, or
      a parsed document. */
  datatype Upload = NoFile | Unparsable | Parsed(data: Json)

  /** Does the cursor name a card of the deck? */
  predicate OnCard(words: seq<WordEntry>, index: Num)
  {
    index.Finite? && 0 <= index.v < |words|
  }

  /** The card on display: the card at the cursor, or the fixed placeholder
      when the cursor is NaN, negative or past the end. */
  function CurrentWord(words: seq<WordEntry>, index: Num): WordEntry
  {
    if OnCard(words, index) then words[index.v] else NoData()
  }
}
