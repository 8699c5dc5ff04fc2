/**
 * How a bot is launched, from its language: the extension of its working
 * file, the interpreter command, and the two special branches (Java is
 * compiled first and its class run afterwards; C# goes through `dotnet run`).
 * Unknown languages fall back to JavaScript's `js` and `node`.
 */
module Strategy {

  /** `bot.language || 'javascript'`: an unset language means JavaScript. */
  function LanguageOf(language: string): (lang: string)
    ensures lang != ""
    ensures language != "" ==> lang == language
  {
    if language == "" then "javascript" else language
  }

  /** `extMap`. */
  const ExtensionTable: map<string, string> := map[
    "javascript" := "js", "typescript" := "ts", "python" := "py", "java" := "java",
    "csharp" := "cs", "go" := "go", "ruby" := "rb", "php" := "php", "bash" := "sh"]

  /** `interpreterMap`. */
  const InterpreterTable: map<string, seq<string>> := map[
    "javascript" := ["node"],
    "typescript" := ["npx", "ts-node"],
    "python" := ["python"],
    "java" := ["java"],
    "csharp" := ["dotnet", "run"],
    "go" := ["go", "run"],
    "ruby" := ["ruby"],
    "php" := ["php"],
    "bash" := ["bash"]]

  /** The languages both tables know. */
  const KnownLanguages: set<string> := {"javascript", "typescript", "python", "java", "csharp", "go", "ruby", "php", "bash"}

  /** `extMap[lang] || 'js'`. */
  function Extension(lang: string): (ext: string)
    ensures ext != ""
  {
    if lang in ExtensionTable && ExtensionTable[lang] != "" then ExtensionTable[lang] else "js"
  }

  /** `interpreterMap[lang] || ['node']` (an array is truthy even when empty). */
  function Interpreter(lang: string): (argv: seq<string>)
    ensures argv != []
  {
    if lang in InterpreterTable then InterpreterTable[lang] else ["node"]
  }

  /** The working file a launch writes: `bot_<id>.<ext>`. */
  function BotFileName(id: string, ext: string): string {
    "bot_" + id + "." + ext
  }

  /** A program and its arguments, as passed to `spawn`. */
  datatype Command = Command(program: string, args: seq<string>)

  /** What the launcher spawns for a bot. */
  datatype LaunchPlan =
    /** One process that runs the bot. */
    | Direct(run: Command)
    /** A compiler process; when it closes with code 0, the run process. */
    | CompileThenRun(compile: Command, run: Command)

  /** The `startProcess` branches for a bot `id` whose working file is `botFile`. */
  function Plan(lang: string, id: string, botFile: string): (plan: LaunchPlan)
    ensures plan.CompileThenRun? <==> lang == "java"
  {
    if lang == "java" then
      CompileThenRun(Command("javac", [botFile]), Command("java", ["bot_" + id]))
    else if lang == "csharp" then
      Direct(Command("dotnet", ["run", botFile]))
    else
      var interpreter := Interpreter(lang);
      Direct(Command(interpreter[0], interpreter[1..] + [botFile]))
  }

  /** Every language the tables know has an extension and an interpreter entry; no other does. */
  lemma TablesAgree()
    ensures ExtensionTable.Keys == KnownLanguages && InterpreterTable.Keys == KnownLanguages
  {
  }

  /** An unknown language is launched as JavaScript: file `bot_<id>.js`, `node <file>`. */
  lemma UnknownLanguageFallsBack(lang: string, id: string)
    requires lang !in KnownLanguages
    ensures Extension(lang) == "js" && Interpreter(lang) == ["node"]
    ensures Plan(lang, id, BotFileName(id, Extension(lang))) == Direct(Command("node", [BotFileName(id, "js")]))
  {
    TablesAgree();
  }

  /** A bot without a language is launched exactly as a JavaScript bot. */
  lemma UnsetLanguageIsJavaScript(id: string)
    ensures Extension(LanguageOf("")) == "js"
    ensures Plan(LanguageOf(""), id, BotFileName(id, "js")) == Direct(Command("node", [BotFileName(id, "js")]))
  {
  }

  /**
   * Outside Java, the spawned argv is the interpreter followed by the file:
   * the program is the interpreter's head and the file is appended to its
   * tail. The C# branch agrees with its table entry `dotnet run`.
   */
  lemma ArgvIsInterpreterThenFile(lang: string, id: string, botFile: string)
    requires lang != "java"
    ensures Plan(lang, id, botFile).Direct?
    ensures [Plan(lang, id, botFile).run.program] + Plan(lang, id, botFile).run.args == Interpreter(lang) + [botFile]
  {
    var interpreter := Interpreter(lang);
    if lang == "csharp" {
      assert interpreter == ["dotnet", "run"];
    } else {
      assert [interpreter[0]] + interpreter[1..] == interpreter;
    }
  }

  /** Distinct known languages get distinct extensions, so their working files never collide. */
  lemma ExtensionsDistinct(a: string, b: string)
    requires a in KnownLanguages && b in KnownLanguages && a != b
    ensures Extension(a) != Extension(b)
  {
  }

  /** Java compiles the working file, then runs the class `bot_<id>` (the file name without `.java`). */
  lemma JavaCompilesThenRunsClass(id: string)
    ensures Plan("java", id, BotFileName(id, Extension("java"))) ==
      CompileThenRun(Command("javac", [BotFileName(id, "java")]), Command("java", ["bot_" + id]))
    ensures BotFileName(id, "java") == ("bot_" + id) + ".java"
  {
  }
}
