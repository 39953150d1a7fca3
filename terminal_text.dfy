/**
 * The fixed texts the terminal prints: command outputs that do not depend on
 * the input, and the lists the random commands pick from.
 */
module TerminalText {

  const SECRETS_MENU: string := "\n🎉 Secret Commands Unlocked:\n━━━━━━━━━━━━━━━━━━━━━━━━━━━━━\n• snake        - Play Snake game\n• memory       - Play Memory Match game\n• joke         - Get a programming joke\n• quote        - Random motivational quote\n• morse [text] - Convert to morse code\n• weather      - Check weather (fake data)\n• coffee       - ☕ Coffee break\n• hack-nasa    - Try hacking NASA\n• flip-coin    - Flip a coin\n• roll-dice    - Roll the dice\n• magic8ball   - Ask the magic 8 ball\n• ascii-art    - Random ASCII art\n• timer [sec]  - Set a countdown timer\n• animations   - Toggle background animations\n━━━━━━━━━━━━━━━━━━━━━━━━━━━━━"
  const ANIMATIONS_TEXT: string := "\n✨ Animation Controls:\n━━━━━━━━━━━━━━━━━━━━━━━━━━━━━\n💡 Look for the settings icon (⚙️) in the bottom-left corner!\n\nAvailable effects:\n• 🌟 Background animations - Subtle floating particles\n• 🖱️  Mouse trail effects - Neon cursor trail  \n• ⚙️  Master toggle - Enable/disable all effects\n\nThe controls respect your motion preferences and\nremember your settings between visits.\n\nTip: Try moving your mouse around to see the trail! ✨"
  const HACK_NASA_TEXT: string := "🚀 Initiating NASA hack...\n[████████████░░░░] 75%\n⚠️  FBI ALERT: Nice try, script kiddie!\n🚔 Connection terminated. Better luck next time! 😄"
  const ASCII_ART: string := "\n    ∧,,,∧\n   (  ̳• · • ̳)\n   /    づ♡ I love coding!\n      "
  const HELP_TEXT: string := "Available commands: help, about, skills, projects, contact, download-resume, clear"
  const WEATHER_TEXT: string := "🌤️ Pune, India: 28°C, Partly Cloudy\n💨 Wind: 12 km/h\n💧 Humidity: 65%\n☀️ Perfect weather for coding!"
  const COFFEE_TEXT: string := "☕ Brewing coffee...\n███████████░░ 80%\n*sip* Ahh, that hits the spot! ☕✨"
  const LOCKED: string := "🔒 Locked! Find the easter egg first."
  const SECRETS_LOCKED: string := "🔒 Locked! Find the easter egg first... Hint: Try the Konami code or click the 🥚"
  const SUDO_TEXT: string := "Nice try! But you need to find the secret first... 🥚"
  const HACK_TEXT: string := "Access Denied! Try finding the hidden egg first 🔐"
  const MATRIX_EXIT: string := "Exiting the Matrix... 👋"
  const MATRIX_ENTER: string := "Welcome to the Matrix... 🟢"
  const KONAMI_TEXT: string := "🎮 Konami Code Activated! You unlocked the secret menu! Type \"secrets\" to explore."
  const DOWNLOADED: string := "Resume downloaded!"
  const SNAKE_LAUNCH: string := "🐍 Launching Snake Game..."
  const MEMORY_LAUNCH: string := "🧠 Launching Memory Match Game..."
  const MORSE_USAGE: string := "📡 Usage: morse [text] - Example: morse hello"
  const HEADS: string := "🪙 Heads!"
  const TAILS: string := "🪙 Tails!"
  const WHOAMI_TEXT: string := "Sankalp Pandey — SDET & Automation Hacker"
  const JOKES: seq<string> := [
    "Why do programmers prefer dark mode? Because light attracts bugs! 🐛",
    "Why did the developer go broke? Because he used up all his cache! 💸",
    "How many programmers does it take to change a light bulb? None, that's a hardware problem! 💡",
    "Why do Java developers wear glasses? Because they don't C#! 👓",
    "A SQL query walks into a bar, walks up to two tables and asks... 'Can I JOIN you?' 🍺"
  ]
  const QUOTES: seq<string> := [
    "\"First, solve the problem. Then, write the code.\" - John Johnson",
    "\"Code is like humor. When you have to explain it, it's bad.\" - Cory House",
    "\"Make it work, make it right, make it fast.\" - Kent Beck",
    "\"Testing leads to failure, and failure leads to understanding.\" - Burt Rutan",
    "\"In God we trust. All others must bring data.\" - W. Edwards Deming"
  ]
  const ANSWERS: seq<string> := [
    "🔮 It is certain",
    "🔮 Without a doubt",
    "🔮 Yes definitely",
    "🔮 Reply hazy, try again",
    "🔮 Ask again later",
    "🔮 Cannot predict now",
    "🔮 Don't count on it",
    "🔮 My sources say no",
    "🔮 Outlook not so good"
  ]
}
